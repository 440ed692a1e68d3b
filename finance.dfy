/** The finance store of the React Native app (`DataService`): two in-memory lists,
    transactions and categories, with CRUD operations, a referential-integrity guard
    on category deletion, a filtered newest-first query and the balance, monthly and
    yearly aggregates. Persistence (AsyncStorage, Google Drive) is not modelled: the
    mutating operations only change the lists. Fresh ids (`Date.now().toString()`) and
    the clock (`new Date().toISOString()`) are parameters. */
module Finance {
  import opened Wrappers
  import opened Seqs
  import opened SeqSums
  import opened Text
  import Calendar

  const Income: string := "income"
  const Expense: string := "expense"
  /** The message of the error `deleteCategory` throws for a category in use. */
  const CategoryInUse: string := "Category is being used in transactions"

  /** A stored transaction. `kind` is the record's `type` field; `date` is the local
      moment the user picked; `createdAt`/`updatedAt` are the clock readings of the writes. */
  datatype Transaction = Transaction(id: string, kind: string, amount: int, categoryId: string,
                                     description: string, date: Calendar.Date,
                                     createdAt: int, updatedAt: int)

  /** The fields a caller passes to `addTransaction`. */
  datatype TransactionInput = TransactionInput(kind: string, amount: int, categoryId: string,
                                               description: string, date: Calendar.Date)

  /** The fields an `updates` object of `updateTransaction` carries; absent ones are `None`.
      Its `updatedAt`, if any, is always overwritten, so it is not represented. */
  datatype TransactionPatch = TransactionPatch(id: Option<string>, kind: Option<string>,
                                               amount: Option<int>, categoryId: Option<string>,
                                               description: Option<string>,
                                               date: Option<Calendar.Date>, createdAt: Option<int>)

  /** A category. The seeded defaults carry no timestamps; added ones do. */
  datatype Category = Category(id: string, name: string, kind: string, icon: string, color: string,
                               createdAt: Option<int>, updatedAt: Option<int>)

  datatype CategoryInput = CategoryInput(name: string, kind: string, icon: string, color: string)

  datatype CategoryPatch = CategoryPatch(id: Option<string>, name: Option<string>, kind: Option<string>,
                                         icon: Option<string>, color: Option<string>,
                                         createdAt: Option<int>)

  /** The `filters` argument of `getTransactions`; a missing field is `None`. */
  datatype TransactionFilters = TransactionFilters(kind: Option<string>, categoryId: Option<string>,
                                                   startDate: Option<Calendar.Date>,
                                                   endDate: Option<Calendar.Date>)

  const NoFilters: TransactionFilters := TransactionFilters(None, None, None, None)

  /** JavaScript truthiness of an optional string: present and not empty. */
  predicate IsSet(o: Option<string>) {
    o.Some? && o.value != ""
  }

  // ----- accessors and predicates used as function values

  function Amount(t: Transaction): int { t.amount }
  function CategoryOf(t: Transaction): string { t.categoryId }
  function MonthIndexOf(t: Transaction): int { t.date.month }
  function DateOrdinal(t: Transaction): int { Calendar.Ordinal(t.date) }

  function HasId(id: string): Transaction -> bool { (t: Transaction) => t.id == id }
  function IdIsNot(id: string): Transaction -> bool { (t: Transaction) => t.id != id }
  function IsKind(k: string): Transaction -> bool { (t: Transaction) => t.kind == k }
  function UsesCategory(id: string): Transaction -> bool { (t: Transaction) => t.categoryId == id }
  function CategoryHasId(id: string): Category -> bool { (c: Category) => c.id == id }
  function CategoryIdIsNot(id: string): Category -> bool { (c: Category) => c.id != id }
  function CategoryIsKind(k: string): Category -> bool { (c: Category) => c.kind == k }

  // ----- records built by the write operations

  /** The record `addTransaction` stores; `created` and `updated` are the two separate
      readings of the clock it takes, in that order. */
  function NewTransaction(input: TransactionInput, id: string, created: int, updated: int): (t: Transaction)
    ensures t.id == id && t.createdAt == created && t.updatedAt == updated
    ensures InputOf(t) == input
  {
    Transaction(id, input.kind, input.amount, input.categoryId, input.description, input.date, created, updated)
  }

  /** The caller-supplied part of a stored transaction. */
  function InputOf(t: Transaction): TransactionInput {
    TransactionInput(t.kind, t.amount, t.categoryId, t.description, t.date)
  }

  /** `{...t, ...updates, updatedAt: now}`. */
  function MergeTransaction(t: Transaction, p: TransactionPatch, now: int): (r: Transaction)
    ensures r.updatedAt == now
  {
    Transaction(p.id.GetOr(t.id), p.kind.GetOr(t.kind), p.amount.GetOr(t.amount),
                p.categoryId.GetOr(t.categoryId), p.description.GetOr(t.description),
                p.date.GetOr(t.date), p.createdAt.GetOr(t.createdAt), now)
  }

  const EmptyTransactionPatch: TransactionPatch := TransactionPatch(None, None, None, None, None, None, None)

  /** An empty patch only refreshes `updatedAt`; a patch field that is present wins, an
      absent one keeps the record's value; merging twice is merging once. */
  lemma MergeTransactionFields(t: Transaction, p: TransactionPatch, now: int)
    ensures MergeTransaction(t, EmptyTransactionPatch, now) == t.(updatedAt := now)
    ensures var m := MergeTransaction(t, p, now);
      && m.id == (if p.id.Some? then p.id.value else t.id)
      && m.kind == (if p.kind.Some? then p.kind.value else t.kind)
      && m.amount == (if p.amount.Some? then p.amount.value else t.amount)
      && m.categoryId == (if p.categoryId.Some? then p.categoryId.value else t.categoryId)
      && m.description == (if p.description.Some? then p.description.value else t.description)
      && m.date == (if p.date.Some? then p.date.value else t.date)
      && m.createdAt == (if p.createdAt.Some? then p.createdAt.value else t.createdAt)
    ensures MergeTransaction(MergeTransaction(t, p, now), p, now) == MergeTransaction(t, p, now)
  {
  }

  /** The record `addCategory` appends; `created` and `updated` are the two separate
      readings of the clock it takes, in that order. */
  function NewCategory(input: CategoryInput, id: string, created: int, updated: int): (c: Category)
    ensures c.id == id && c.createdAt == Some(created) && c.updatedAt == Some(updated)
    ensures CategoryInput(c.name, c.kind, c.icon, c.color) == input
  {
    Category(id, input.name, input.kind, input.icon, input.color, Some(created), Some(updated))
  }

  /** `{...c, ...updates, updatedAt: now}`. */
  function MergeCategory(c: Category, p: CategoryPatch, now: int): (r: Category)
    ensures r.updatedAt == Some(now)
  {
    Category(p.id.GetOr(c.id), p.name.GetOr(c.name), p.kind.GetOr(c.kind), p.icon.GetOr(c.icon),
             p.color.GetOr(c.color), if p.createdAt.Some? then p.createdAt else c.createdAt, Some(now))
  }

  const EmptyCategoryPatch: CategoryPatch := CategoryPatch(None, None, None, None, None, None)

  /** An empty patch only refreshes `updatedAt`; a patch field that is present wins, an
      absent one keeps the category's value; merging twice is merging once. */
  lemma MergeCategoryFields(c: Category, p: CategoryPatch, now: int)
    ensures MergeCategory(c, EmptyCategoryPatch, now) == c.(updatedAt := Some(now))
    ensures var m := MergeCategory(c, p, now);
      && m.id == (if p.id.Some? then p.id.value else c.id)
      && m.name == (if p.name.Some? then p.name.value else c.name)
      && m.kind == (if p.kind.Some? then p.kind.value else c.kind)
      && m.icon == (if p.icon.Some? then p.icon.value else c.icon)
      && m.color == (if p.color.Some? then p.color.value else c.color)
      && m.createdAt == (if p.createdAt.Some? then p.createdAt else c.createdAt)
    ensures MergeCategory(MergeCategory(c, p, now), p, now) == MergeCategory(c, p, now)
  {
  }

  // ----- default categories

  function DefaultCategory(id: string, name: string, kind: string, icon: string, color: string): Category {
    Category(id, name, kind, icon, color, None, None)
  }

  /** `getDefaultCategories()`. */
  const DefaultCategories: seq<Category> := [
    DefaultCategory("1", "Gaji", Income, "cash", "#27AE60"),
    DefaultCategory("2", "Bonus", Income, "gift", "#2ECC71"),
    DefaultCategory("3", "Investasi", Income, "trending-up", "#16A085"),
    DefaultCategory("4", "Lainnya", Income, "dots-horizontal", "#1ABC9C"),
    DefaultCategory("5", "Makanan", Expense, "food", "#E74C3C"),
    DefaultCategory("6", "Transportasi", Expense, "car", "#C0392B"),
    DefaultCategory("7", "Belanja", Expense, "shopping", "#D35400"),
    DefaultCategory("8", "Tagihan", Expense, "receipt", "#E67E22"),
    DefaultCategory("9", "Kesehatan", Expense, "hospital", "#8E44AD"),
    DefaultCategory("10", "Pendidikan", Expense, "school", "#9B59B6"),
    DefaultCategory("11", "Hiburan", Expense, "gamepad-variant", "#3498DB"),
    DefaultCategory("12", "Lainnya", Expense, "dots-horizontal", "#2980B9")
  ]

  /** Twelve defaults with ids "1" to "12": four income categories, then eight expense ones,
      none carrying a timestamp. */
  lemma DefaultCategoriesShape()
    ensures |DefaultCategories| == 12
    ensures forall i :: 0 <= i < 12 ==> DefaultCategories[i].id == NatToString(i + 1)
    ensures forall i :: 0 <= i < 4 ==> DefaultCategories[i].kind == Income
    ensures forall i :: 4 <= i < 12 ==> DefaultCategories[i].kind == Expense
    ensures forall i :: 0 <= i < 12 ==> DefaultCategories[i].createdAt.None?
    ensures forall i :: 0 <= i < 12 ==> DefaultCategories[i].updatedAt.None?
  {
    assert NatToString(10) == "10" && NatToString(11) == "11" && NatToString(12) == "12";
  }

  // ----- the query of getTransactions

  function KindOk(f: TransactionFilters): Transaction -> bool {
    (t: Transaction) => !IsSet(f.kind) || t.kind == f.kind.value
  }
  function CategoryOk(f: TransactionFilters): Transaction -> bool {
    (t: Transaction) => KindOk(f)(t) && (!IsSet(f.categoryId) || t.categoryId == f.categoryId.value)
  }
  function StartOk(f: TransactionFilters): Transaction -> bool {
    (t: Transaction) => CategoryOk(f)(t) && (f.startDate.None? || DateOrdinal(t) >= Calendar.Ordinal(f.startDate.value))
  }

  /** A transaction passes `f`: every filter that is set accepts it; the date bounds are inclusive. */
  predicate Passes(f: TransactionFilters, t: Transaction) {
    (!IsSet(f.kind) || t.kind == f.kind.value)
    && (!IsSet(f.categoryId) || t.categoryId == f.categoryId.value)
    && (f.startDate.None? || Calendar.Ordinal(t.date) >= Calendar.Ordinal(f.startDate.value))
    && (f.endDate.None? || Calendar.Ordinal(t.date) <= Calendar.Ordinal(f.endDate.value))
  }

  function PassesAll(f: TransactionFilters): Transaction -> bool {
    (t: Transaction) => Passes(f, t)
  }

  function OnOrAfter(d: Calendar.Date): Transaction -> bool {
    (t: Transaction) => DateOrdinal(t) >= Calendar.Ordinal(d)
  }
  function OnOrBefore(d: Calendar.Date): Transaction -> bool {
    (t: Transaction) => DateOrdinal(t) <= Calendar.Ordinal(d)
  }

  /** The four `if (filters.x) filtered = filtered.filter(...)` steps. */
  function Selected(ts: seq<Transaction>, f: TransactionFilters): seq<Transaction> {
    var a := if IsSet(f.kind) then Filter(ts, IsKind(f.kind.value)) else ts;
    var b := if IsSet(f.categoryId) then Filter(a, UsesCategory(f.categoryId.value)) else a;
    var c := if f.startDate.Some? then Filter(b, OnOrAfter(f.startDate.value)) else b;
    if f.endDate.Some? then Filter(c, OnOrBefore(f.endDate.value)) else c
  }

  /** `getTransactions(filters)`: the selection, sorted newest first by a stable sort. */
  function Query(ts: seq<Transaction>, f: TransactionFilters): seq<Transaction> {
    SortDesc(Selected(ts, f), DateOrdinal)
  }

  /** The type and category steps keep the transactions that pass both filters. */
  lemma KindCategorySteps(ts: seq<Transaction>, f: TransactionFilters)
    ensures var a := if IsSet(f.kind) then Filter(ts, IsKind(f.kind.value)) else ts;
      (if IsSet(f.categoryId) then Filter(a, UsesCategory(f.categoryId.value)) else a) == Filter(ts, CategoryOk(f))
  {
    var a := if IsSet(f.kind) then Filter(ts, IsKind(f.kind.value)) else ts;
    OptionalFilter(ts, IsSet(f.kind), IsKind(f.kind.GetOr("")), KindOk(f));
    var catOnly := (t: Transaction) => !IsSet(f.categoryId) || t.categoryId == f.categoryId.value;
    OptionalFilter(a, IsSet(f.categoryId), UsesCategory(f.categoryId.GetOr("")), catOnly);
    FilterTwice(ts, KindOk(f), catOnly, CategoryOk(f));
  }

  /** The two date steps, after the first two, keep the transactions that pass all four filters. */
  lemma DateSteps(ts: seq<Transaction>, f: TransactionFilters)
    ensures var b := Filter(ts, CategoryOk(f));
      var c := if f.startDate.Some? then Filter(b, OnOrAfter(f.startDate.value)) else b;
      (if f.endDate.Some? then Filter(c, OnOrBefore(f.endDate.value)) else c) == Filter(ts, PassesAll(f))
  {
    var b := Filter(ts, CategoryOk(f));
    var c := if f.startDate.Some? then Filter(b, OnOrAfter(f.startDate.value)) else b;
    var startOnly := (t: Transaction) => f.startDate.None? || DateOrdinal(t) >= Calendar.Ordinal(f.startDate.value);
    if f.startDate.Some? {
      OptionalFilter(b, true, OnOrAfter(f.startDate.value), startOnly);
    } else {
      OptionalFilter(b, false, OnOrAfter(Calendar.Midnight(1970, 0, 1)), startOnly);
    }
    FilterTwice(ts, CategoryOk(f), startOnly, StartOk(f));
    var endOnly := (t: Transaction) => f.endDate.None? || DateOrdinal(t) <= Calendar.Ordinal(f.endDate.value);
    if f.endDate.Some? {
      OptionalFilter(c, true, OnOrBefore(f.endDate.value), endOnly);
    } else {
      OptionalFilter(c, false, OnOrBefore(Calendar.Midnight(1970, 0, 1)), endOnly);
    }
    forall x: Transaction ensures PassesAll(f)(x) == (StartOk(f)(x) && endOnly(x)) {
      assert CategoryOk(f)(x) == (KindOk(f)(x) && (!IsSet(f.categoryId) || x.categoryId == f.categoryId.value));
      assert StartOk(f)(x) == (CategoryOk(f)(x) && startOnly(x));
    }
    FilterTwice(ts, StartOk(f), endOnly, PassesAll(f));
  }

  /** The chain of optional filters keeps exactly the transactions that pass all of them, in order. */
  lemma SelectedIsFilter(ts: seq<Transaction>, f: TransactionFilters)
    ensures Selected(ts, f) == Filter(ts, PassesAll(f))
  {
    KindCategorySteps(ts, f);
    DateSteps(ts, f);
  }

  /** `getTransactions(filters)` returns each transaction that passes every filter, as often
      as it is stored and no other; newest first; transactions with the same date keep their
      stored order. */
  lemma QueryCorrect(ts: seq<Transaction>, f: TransactionFilters)
    ensures multiset(Query(ts, f)) == multiset(Filter(ts, PassesAll(f)))
    ensures forall t :: t in Query(ts, f) <==> t in ts && Passes(f, t)
    ensures SortedDesc(Query(ts, f), DateOrdinal)
    ensures forall k :: Filter(Query(ts, f), KeyIs(DateOrdinal, k)) == Filter(Filter(ts, PassesAll(f)), KeyIs(DateOrdinal, k))
  {
    SelectedIsFilter(ts, f);
    var sel := Filter(ts, PassesAll(f));
    SortDescCorrect(sel, DateOrdinal);
    FilterMembers(ts, PassesAll(f));
    forall t ensures t in Query(ts, f) <==> t in sel {
      assert t in Query(ts, f) <==> t in multiset(Query(ts, f));
    }
    forall k ensures Filter(Query(ts, f), KeyIs(DateOrdinal, k)) == Filter(sel, KeyIs(DateOrdinal, k)) {
      SortDescStable(sel, DateOrdinal, k);
    }
  }

  /** With no filter set, the query is the whole store, reordered. */
  lemma QueryNoFilters(ts: seq<Transaction>)
    ensures multiset(Query(ts, NoFilters)) == multiset(ts)
  {
    QueryCorrect(ts, NoFilters);
    FilterAll(ts, PassesAll(NoFilters));
  }

  // ----- balance

  /** Sum of the amounts of the transactions of kind `k`: the `filter(...).reduce(...)` pattern. */
  function KindTotal(ts: seq<Transaction>, k: string): int {
    SumOf(Filter(ts, IsKind(k)), Amount)
  }

  /** Income minus expense, as `getBalance` computes it. */
  function Balance(ts: seq<Transaction>): int {
    KindTotal(ts, Income) - KindTotal(ts, Expense)
  }

  /** A transaction's contribution to the balance: + for income, - for expense, 0 otherwise. */
  function SignedAmount(t: Transaction): int {
    if t.kind == Income then t.amount else if t.kind == Expense then -t.amount else 0
  }

  function KindWeight(k: string): Transaction -> int {
    (t: Transaction) => if t.kind == k then t.amount else 0
  }

  /** The total of a kind is the sum of the amounts masked to that kind. */
  lemma KindTotalMasked(ts: seq<Transaction>, k: string)
    ensures KindTotal(ts, k) == SumOf(ts, KindWeight(k))
  {
    FilterSumMasked(ts, IsKind(k), Amount, KindWeight(k));
  }

  /** The balance is the signed sum over all transactions: other kinds count 0. */
  lemma BalanceIsSignedSum(ts: seq<Transaction>)
    ensures Balance(ts) == SumOf(ts, SignedAmount)
  {
    KindTotalMasked(ts, Income);
    KindTotalMasked(ts, Expense);
    SumOfSub(ts, KindWeight(Income), KindWeight(Expense), SignedAmount);
  }

  /** An empty store has balance 0; prepending a record shifts the balance by its signed amount. */
  lemma BalanceSteps(t: Transaction, ts: seq<Transaction>)
    ensures Balance([]) == 0
    ensures Balance([t] + ts) == SignedAmount(t) + Balance(ts)
  {
    BalanceIsSignedSum([]);
    BalanceIsSignedSum([t] + ts);
    BalanceIsSignedSum(ts);
    assert ([t] + ts)[1..] == ts;
  }

  // ----- monthly statistics

  /** `new Date(year, ...)` reads a year from 0 to 99 as 1900 to 1999. */
  function JsYear(year: int): int {
    if 0 <= year <= 99 then 1900 + year else year
  }

  /** The (year, 0-based month) that `new Date(year, month - 1, 1)` falls in. */
  function StatsMonth(year: int, month: int): (int, int) {
    Calendar.MonthOf(JsYear(year), month - 1)
  }

  /** `new Date(year, month - 1, 1)`: 00:00 on the first day. */
  function MonthStart(year: int, month: int): Calendar.Date {
    var ym := StatsMonth(year, month);
    Calendar.Midnight(ym.0, ym.1, 1)
  }

  /** `new Date(year, month, 0)`: 00:00 on the last day of the same month. */
  function MonthEnd(year: int, month: int): Calendar.Date {
    var ym := StatsMonth(year, month);
    Calendar.Midnight(ym.0, ym.1, Calendar.DaysInMonth(ym.0, ym.1))
  }

  /** The date test of `getMonthlyStatistics`: `date >= startDate && date <= endDate`. */
  function InMonth(year: int, month: int): Transaction -> bool {
    (t: Transaction) => Calendar.Ordinal(MonthStart(year, month)) <= DateOrdinal(t) <= Calendar.Ordinal(MonthEnd(year, month))
  }

  /** A transaction counts for the month exactly when it lies in that calendar month and is
      not on its last day after 00:00:00.000. */
  lemma InMonthMeaning(year: int, month: int, t: Transaction)
    ensures var ym := StatsMonth(year, month);
      var last := Calendar.DaysInMonth(ym.0, ym.1);
      InMonth(year, month)(t) <==>
        t.date.year == ym.0 && t.date.month == ym.1
        && (t.date.day < last || (t.date.day == last && Calendar.MillisOfDay(t.date) == 0))
  {
    var s, e, d := MonthStart(year, month), MonthEnd(year, month), t.date;
    Calendar.OrdinalOrder(s, d);
    Calendar.OrdinalOrder(d, e);
    assert 0 <= Calendar.MillisOfDay(d);
  }

  /** For example, 31 January 2024 at 08:00 is not counted in January 2024. */
  lemma LastDayAfterMidnightExcluded(t: Transaction)
    requires t.date == Calendar.DateTime(2024, 0, 31, 8, 0, 0, 0)
    ensures !InMonth(2024, 1)(t)
  {
    InMonthMeaning(2024, 1, t);
  }

  /** Whether a property key is an array index: the canonical numeral of an integer
      from 0 to 2^32 - 2. */
  predicate IsArrayIndex(k: string) {
    k != [] && AllDigits(k) && (k[0] != '0' || k == "0") && DigitsValue(k) <= 4294967294
  }

  function NotArrayIndex(k: string): bool { !IsArrayIndex(k) }

  /** Sorting by this in descending order puts array indices in ascending numeric order. */
  function IndexRank(k: string): int {
    if IsArrayIndex(k) then 0 - DigitsValue(k) else 0
  }

  /** The order in which `Object.values` and `Object.keys` list an object whose keys were
      inserted in the order `keys`: array indices first, ascending, then the other keys
      in insertion order. */
  function ObjectKeyOrder(keys: seq<string>): seq<string> {
    SortDesc(Filter(keys, IsArrayIndex), IndexRank) + Filter(keys, NotArrayIndex)
  }

  lemma ObjectKeyOrderPermutation(keys: seq<string>)
    ensures multiset(ObjectKeyOrder(keys)) == multiset(keys)
    ensures forall k :: k in ObjectKeyOrder(keys) <==> k in keys
  {
    SortDescCorrect(Filter(keys, IsArrayIndex), IndexRank);
    FilterSplitMultiset(keys, IsArrayIndex, NotArrayIndex);
    forall k ensures k in ObjectKeyOrder(keys) <==> k in keys {
      assert k in ObjectKeyOrder(keys) <==> k in multiset(ObjectKeyOrder(keys));
    }
  }

  /** One entry of `categorySummary`. */
  datatype CategorySummary = CategorySummary(category: Option<Category>, amount: int, count: int)

  function SummaryAmount(c: CategorySummary): int { c.amount }
  function SummaryCount(c: CategorySummary): int { c.count }

  /** `getCategoryById(id)`. */
  function FindCategory(cats: seq<Category>, id: string): Option<Category> {
    Find(cats, CategoryHasId(id))
  }

  /** What the `forEach` has accumulated for category `id` after the transactions `ts`. */
  function SummaryOf(ts: seq<Transaction>, cats: seq<Category>, id: string): CategorySummary {
    var mine := Filter(ts, ClassIs(CategoryOf, id));
    CategorySummary(FindCategory(cats, id), SumOf(mine, Amount), |mine|)
  }

  function Summaries(ts: seq<Transaction>, cats: seq<Category>, ids: seq<string>): seq<CategorySummary> {
    seq(|ids|, j requires 0 <= j < |ids| => SummaryOf(ts, cats, ids[j]))
  }

  /** The `categorySummary` list of the month transactions `ts`. */
  function MonthSummary(ts: seq<Transaction>, cats: seq<Category>): seq<CategorySummary> {
    Summaries(ts, cats, ObjectKeyOrder(FirstSeen(ts, CategoryOf)))
  }

  /** One more transaction adds to its own category's entry and to no other. */
  lemma SummaryStep(ts: seq<Transaction>, t: Transaction, cats: seq<Category>, id: string)
    ensures SummaryOf(ts + [t], cats, id) ==
      if id == t.categoryId
      then SummaryOf(ts, cats, id).(amount := SummaryOf(ts, cats, id).amount + t.amount,
                                    count := SummaryOf(ts, cats, id).count + 1)
      else SummaryOf(ts, cats, id)
  {
    FilterAppend(ts, [t], ClassIs(CategoryOf, id));
    var mine := Filter(ts, ClassIs(CategoryOf, id));
    assert [t][1..] == [];
    var last := Filter([t], ClassIs(CategoryOf, id));
    assert ClassIs(CategoryOf, id)(t) == (CategoryOf(t) == id);
    assert CategoryOf(t) == t.categoryId;
    assert last == if t.categoryId == id then [t] else [];
    SumOfAppend(mine, last, Amount);
  }

  /** One turn of the `forEach` of `getMonthlyStatistics` keeps the key order and the
      entries equal to what the transactions seen so far give. */
  lemma TallyStep(done: seq<Transaction>, t: Transaction, cats: seq<Category>,
                  keys0: seq<string>, sum0: map<string, CategorySummary>,
                  entry: CategorySummary, keys1: seq<string>, sum1: map<string, CategorySummary>)
    requires forall k :: k in sum0 <==> k in keys0
    requires forall k :: k in sum0 ==> sum0[k] == SummaryOf(done, cats, k)
    requires keys1 == if t.categoryId in keys0 then keys0 else keys0 + [t.categoryId]
    requires entry == SummaryOf(done, cats, t.categoryId)
    requires sum1 == sum0[t.categoryId := entry.(amount := entry.amount + t.amount, count := entry.count + 1)]
    ensures forall k :: k in sum1 <==> k in keys1
    ensures forall k :: k in sum1 ==> sum1[k] == SummaryOf(done + [t], cats, k)
  {
    forall k | k in sum1 ensures sum1[k] == SummaryOf(done + [t], cats, k) {
      SummaryStep(done, t, cats, k);
    }
  }

  /** A category no transaction has used yet has an empty entry. */
  lemma SummaryUnseen(ts: seq<Transaction>, cats: seq<Category>, id: string)
    requires id !in FirstSeen(ts, CategoryOf)
    ensures SummaryOf(ts, cats, id) == CategorySummary(FindCategory(cats, id), 0, 0)
  {
    FilterNone(ts, ClassIs(CategoryOf, id));
  }

  /** Listing the finished entries in key order gives `MonthSummary`. */
  lemma SummaryValues(ts: seq<Transaction>, cats: seq<Category>, keys: seq<string>,
                      summary: map<string, CategorySummary>, values: seq<CategorySummary>)
    requires keys == FirstSeen(ts, CategoryOf)
    requires forall k :: k in summary <==> k in keys
    requires forall k :: k in summary ==> summary[k] == SummaryOf(ts, cats, k)
    requires forall k :: k in ObjectKeyOrder(keys) ==> k in summary
    requires |values| == |ObjectKeyOrder(keys)|
    requires forall j :: 0 <= j < |values| ==> values[j] == summary[ObjectKeyOrder(keys)[j]]
    ensures values == MonthSummary(ts, cats)
  {
    var order := ObjectKeyOrder(keys);
    var expected := MonthSummary(ts, cats);
    assert |expected| == |order|;
    forall j | 0 <= j < |values| ensures values[j] == expected[j] {
      assert order[j] in summary;
      assert expected[j] == SummaryOf(ts, cats, order[j]);
    }
  }

  /** The per-category counts add up to the number of month transactions, and the
      per-category amounts to their total. */
  lemma MonthSummaryTotals(ts: seq<Transaction>, cats: seq<Category>)
    ensures SumOf(MonthSummary(ts, cats), SummaryCount) == |ts|
    ensures SumOf(MonthSummary(ts, cats), SummaryAmount) == SumOf(ts, Amount)
  {
    var keys := FirstSeen(ts, CategoryOf);
    var order := ObjectKeyOrder(keys);
    var cs := MonthSummary(ts, cats);
    var one := (t: Transaction) => 1;
    forall i | 0 <= i < |order|
      ensures SummaryCount(cs[i]) == ClassWeight(ts, CategoryOf, one)(order[i])
    {
      SumOfOnes(Filter(ts, ClassIs(CategoryOf, order[i])), one);
    }
    SumOfMapped(cs, order, SummaryCount, ClassWeight(ts, CategoryOf, one));
    SumOfMapped(cs, order, SummaryAmount, ClassWeight(ts, CategoryOf, Amount));
    ObjectKeyOrderPermutation(keys);
    SumOfPermutation(order, keys, ClassWeight(ts, CategoryOf, one));
    SumOfPermutation(order, keys, ClassWeight(ts, CategoryOf, Amount));
    PartitionSum(ts, keys, CategoryOf, one);
    PartitionSum(ts, keys, CategoryOf, Amount);
    SumOfOnes(ts, one);
  }

  /** The result of `getMonthlyStatistics`. */
  datatype MonthlyStatistics = MonthlyStatistics(income: int, expense: int, balance: int,
                                                 transactions: seq<Transaction>,
                                                 categorySummary: seq<CategorySummary>)

  // ----- yearly statistics

  datatype MonthRow = MonthRow(month: int, income: int, expense: int, balance: int)

  /** The result of `getYearlyStatistics`. */
  datatype YearlyStatistics = YearlyStatistics(year: int, totalIncome: int, totalExpense: int,
                                               totalBalance: int, monthlyData: seq<MonthRow>)

  function RowIncome(r: MonthRow): int { r.income }
  function RowExpense(r: MonthRow): int { r.expense }

  function InYear(year: int): Transaction -> bool { (t: Transaction) => t.date.year == year }

  /** The row for 0-based month `m` of the year's transactions `yts`. */
  function RowOf(yts: seq<Transaction>, m: int): MonthRow {
    var mts := Filter(yts, ClassIs(MonthIndexOf, m));
    MonthRow(m + 1, KindTotal(mts, Income), KindTotal(mts, Expense),
             KindTotal(mts, Income) - KindTotal(mts, Expense))
  }

  const MonthIndices: seq<int> := seq(12, i => i)

  /** The twelve month totals of a kind add up to the year's total of that kind. */
  lemma MonthsPartitionKind(yts: seq<Transaction>, rows: seq<MonthRow>, k: string, field: MonthRow -> int)
    requires |rows| == 12
    requires forall m :: 0 <= m < 12 ==> field(rows[m]) == KindTotal(Filter(yts, ClassIs(MonthIndexOf, m)), k)
    ensures SumOf(rows, field) == KindTotal(yts, k)
  {
    var cw := ClassWeight(yts, MonthIndexOf, KindWeight(k));
    assert SumOf(rows, field) == SumOf(MonthIndices, cw) by {
      forall m | 0 <= m < 12 ensures field(rows[m]) == cw(MonthIndices[m]) {
        KindTotalMasked(Filter(yts, ClassIs(MonthIndexOf, m)), k);
      }
      SumOfMapped(rows, MonthIndices, field, cw);
    }
    assert SumOf(MonthIndices, cw) == SumOf(yts, KindWeight(k)) by {
      forall i | 0 <= i < |yts| ensures MonthIndexOf(yts[i]) in MonthIndices {
        assert MonthIndices[yts[i].date.month] == yts[i].date.month;
      }
      PartitionSum(yts, MonthIndices, MonthIndexOf, KindWeight(k));
    }
    KindTotalMasked(yts, k);
  }

  /** Rows built by `RowOf` for every month add up to the year's totals. */
  lemma YearRowsTotals(yts: seq<Transaction>, rows: seq<MonthRow>)
    requires |rows| == 12
    requires forall m :: 0 <= m < 12 ==> rows[m] == RowOf(yts, m)
    ensures SumOf(rows, RowIncome) == KindTotal(yts, Income)
    ensures SumOf(rows, RowExpense) == KindTotal(yts, Expense)
  {
    MonthsPartitionKind(yts, rows, Income, RowIncome);
    MonthsPartitionKind(yts, rows, Expense, RowExpense);
  }

  lemma PrefixSnoc<T>(s: seq<T>, i: int)
    requires 0 <= i < |s|
    ensures s[..i + 1] == s[..i] + [s[i]]
  {
  }

  /** One turn of the `forEach` of `getMonthlyStatistics`: the entry of `t`'s category is
      created (with the category looked up in `cats`) the first time the category occurs,
      and then gets `t`'s amount and one more count. */
  method TallyOne(done: seq<Transaction>, t: Transaction, cats: seq<Category>,
                  summary0: map<string, CategorySummary>, keys0: seq<string>)
    returns (summary: map<string, CategorySummary>, keys: seq<string>)
    requires keys0 == FirstSeen(done, CategoryOf)
    requires forall k :: k in summary0 <==> k in keys0
    requires forall k :: k in summary0 ==> summary0[k] == SummaryOf(done, cats, k)
    ensures keys == FirstSeen(done + [t], CategoryOf)
    ensures forall k :: k in summary <==> k in keys
    ensures forall k :: k in summary ==> summary[k] == SummaryOf(done + [t], cats, k)
  {
    var entry;
    keys := keys0;
    if t.categoryId in summary0 {
      entry := summary0[t.categoryId];
    } else {
      SummaryUnseen(done, cats, t.categoryId);
      entry := CategorySummary(FindCategory(cats, t.categoryId), 0, 0);
      keys := keys + [t.categoryId];
    }
    summary := summary0[t.categoryId := entry.(amount := entry.amount + t.amount, count := entry.count + 1)];
    TallyStep(done, t, cats, keys0, summary0, entry, keys, summary);
    FirstSeenSnoc(done, t, CategoryOf);
  }

  /** The `forEach` of `getMonthlyStatistics`: one entry per category of `ts`; `keys`
      records the order in which the entries were created. */
  method TallyByCategory(ts: seq<Transaction>, cats: seq<Category>)
    returns (summary: map<string, CategorySummary>, keys: seq<string>)
    ensures keys == FirstSeen(ts, CategoryOf)
    ensures forall k :: k in summary <==> k in keys
    ensures forall k :: k in summary ==> summary[k] == SummaryOf(ts, cats, k)
  {
    summary, keys := map[], [];
    var i := 0;
    while i < |ts|
      invariant 0 <= i <= |ts|
      invariant keys == FirstSeen(ts[..i], CategoryOf)
      invariant forall k :: k in summary <==> k in keys
      invariant forall k :: k in summary ==> summary[k] == SummaryOf(ts[..i], cats, k)
    {
      summary, keys := TallyOne(ts[..i], ts[i], cats, summary, keys);
      PrefixSnoc(ts, i);
      i := i + 1;
    }
    assert ts[..i] == ts;
  }

  /** The entries of `summary` listed in the key order `order`. */
  function ValuesIn(summary: map<string, CategorySummary>, order: seq<string>): (r: seq<CategorySummary>)
    requires forall k :: k in order ==> k in summary
    ensures |r| == |order| && forall j :: 0 <= j < |order| ==> r[j] == summary[order[j]]
  {
    seq(|order|, j requires 0 <= j < |order| => summary[order[j]])
  }

  /** The `categorySummary` part of `getMonthlyStatistics`: the `forEach` tally of the
      month transactions `ts`, listed by `Object.values`. */
  method CategorySummaryOf(ts: seq<Transaction>, cats: seq<Category>) returns (values: seq<CategorySummary>)
    ensures values == MonthSummary(ts, cats)
  {
    var summary, keys := TallyByCategory(ts, cats);
    var order := ObjectKeyOrder(keys);
    ObjectKeyOrderPermutation(keys);
    values := ValuesIn(summary, order);
    SummaryValues(ts, cats, keys, summary, values);
  }

  // ----- the store

  /** The `DataService` singleton. */
  class DataService {
    var transactions: seq<Transaction>
    var categories: seq<Category>
    var isInitialized: bool

    constructor ()
      ensures transactions == [] && categories == [] && !isInitialized
    {
      transactions := [];
      categories := [];
      isInitialized := false;
    }

    /** What `initialize` does once storage has been read: `loadedTransactions` and
        `loadedCategories` are the stored lists, `None` when nothing was stored. Without
        stored categories the defaults are used. A second call changes nothing. */
    method Initialize(loadedTransactions: Option<seq<Transaction>>, loadedCategories: Option<seq<Category>>)
      modifies this
      ensures isInitialized
      ensures old(isInitialized) ==> transactions == old(transactions) && categories == old(categories)
      ensures !old(isInitialized) ==>
                transactions == loadedTransactions.GetOr(old(transactions))
                && categories == loadedCategories.GetOr(DefaultCategories)
    {
      if isInitialized {
        return;
      }
      if loadedTransactions.Some? {
        transactions := loadedTransactions.value;
      }
      if loadedCategories.Some? {
        categories := loadedCategories.value;
      } else {
        categories := DefaultCategories;
      }
      isInitialized := true;
    }

    /** `addTransaction`: the new record goes in front (`unshift`). */
    method AddTransaction(input: TransactionInput, freshId: string, created: int, updated: int)
      returns (t: Transaction)
      modifies this
      ensures t == NewTransaction(input, freshId, created, updated)
      ensures transactions == [t] + old(transactions)
      ensures categories == old(categories) && isInitialized == old(isInitialized)
    {
      t := NewTransaction(input, freshId, created, updated);
      transactions := [t] + transactions;
    }

    /** `updateTransaction`: merges `patch` into the first record with the id; `None` (null)
        and no change when there is none. */
    method UpdateTransaction(id: string, patch: TransactionPatch, now: int) returns (r: Option<Transaction>)
      modifies this
      ensures categories == old(categories) && isInitialized == old(isInitialized)
      ensures var i := IndexWhere(old(transactions), HasId(id));
        if i == -1 then r.None? && transactions == old(transactions)
        else transactions == old(transactions)[i := MergeTransaction(old(transactions)[i], patch, now)]
             && r == Some(transactions[i])
    {
      var index := IndexWhere(transactions, HasId(id));
      if index != -1 {
        transactions := transactions[index := MergeTransaction(transactions[index], patch, now)];
        return Some(transactions[index]);
      }
      return None;
    }

    /** `deleteTransaction`: keeps the records with another id. */
    method DeleteTransaction(id: string)
      modifies this
      ensures transactions == Filter(old(transactions), IdIsNot(id))
      ensures categories == old(categories) && isInitialized == old(isInitialized)
    {
      transactions := Filter(transactions, IdIsNot(id));
    }

    /** `getTransactions(filters)`. */
    function GetTransactions(f: TransactionFilters): (r: seq<Transaction>)
      reads this
      ensures multiset(r) == multiset(Filter(transactions, PassesAll(f)))
      ensures forall t :: t in r <==> t in transactions && Passes(f, t)
      ensures SortedDesc(r, DateOrdinal)
    {
      QueryCorrect(transactions, f);
      Query(transactions, f)
    }

    /** `getTransactionById(id)`. */
    function GetTransactionById(id: string): (r: Option<Transaction>)
      reads this
      ensures r.None? <==> forall j :: 0 <= j < |transactions| ==> transactions[j].id != id
      ensures r.Some? ==> exists i :: 0 <= i < |transactions| && transactions[i] == r.value && r.value.id == id
                                      && forall j :: 0 <= j < i ==> transactions[j].id != id
    {
      Find(transactions, HasId(id))
    }

    /** `addCategory`: the new record goes at the end (`push`). */
    method AddCategory(input: CategoryInput, freshId: string, created: int, updated: int)
      returns (c: Category)
      modifies this
      ensures c == NewCategory(input, freshId, created, updated)
      ensures categories == old(categories) + [c]
      ensures transactions == old(transactions) && isInitialized == old(isInitialized)
    {
      c := NewCategory(input, freshId, created, updated);
      categories := categories + [c];
    }

    /** `updateCategory`: merges `patch` into the first category with the id. */
    method UpdateCategory(id: string, patch: CategoryPatch, now: int) returns (r: Option<Category>)
      modifies this
      ensures transactions == old(transactions) && isInitialized == old(isInitialized)
      ensures var i := IndexWhere(old(categories), CategoryHasId(id));
        if i == -1 then r.None? && categories == old(categories)
        else categories == old(categories)[i := MergeCategory(old(categories)[i], patch, now)]
             && r == Some(categories[i])
    {
      var index := IndexWhere(categories, CategoryHasId(id));
      if index != -1 {
        categories := categories[index := MergeCategory(categories[index], patch, now)];
        return Some(categories[index]);
      }
      return None;
    }

    /** `deleteCategory`: refuses, with the thrown message, when a transaction uses the
        category; otherwise keeps the categories with another id. */
    method DeleteCategory(id: string) returns (error: Option<string>)
      modifies this
      ensures transactions == old(transactions) && isInitialized == old(isInitialized)
      ensures error.Some? <==> exists j :: 0 <= j < |transactions| && transactions[j].categoryId == id
      ensures error.Some? ==> error.value == CategoryInUse && categories == old(categories)
      ensures error.None? ==> categories == Filter(old(categories), CategoryIdIsNot(id))
    {
      var isUsed := IndexWhere(transactions, UsesCategory(id)) != -1;
      if isUsed {
        return Some(CategoryInUse);
      }
      categories := Filter(categories, CategoryIdIsNot(id));
      return None;
    }

    /** `getCategories(type)`: all categories, or those of the given kind. */
    function GetCategories(kind: Option<string>): (r: seq<Category>)
      reads this
      ensures IsSubsequence(r, categories)
      ensures forall c :: c in r <==> c in categories && (!IsSet(kind) || c.kind == kind.value)
      ensures forall c :: multiset(r)[c] == if !IsSet(kind) || c.kind == kind.value then multiset(categories)[c] else 0
    {
      if IsSet(kind) then
        FilterIsSubsequence(categories, CategoryIsKind(kind.value));
        FilterMembers(categories, CategoryIsKind(kind.value));
        FilterCount(categories, CategoryIsKind(kind.value));
        Filter(categories, CategoryIsKind(kind.value))
      else
        SubsequenceOfItself(categories);
        categories
    }

    /** `getCategoryById(id)`. */
    function GetCategoryById(id: string): (r: Option<Category>)
      reads this
      ensures r.None? <==> forall j :: 0 <= j < |categories| ==> categories[j].id != id
      ensures r.Some? ==> exists i :: 0 <= i < |categories| && categories[i] == r.value && r.value.id == id
                                      && forall j :: 0 <= j < i ==> categories[j].id != id
    {
      FindCategory(categories, id)
    }

    /** `getBalance()`. */
    function GetBalance(): (r: int)
      reads this
      ensures r == SumOf(transactions, SignedAmount)
    {
      BalanceIsSignedSum(transactions);
      Balance(transactions)
    }

    /** `getMonthlyStatistics(year, month)`, `month` 1-based. */
    method GetMonthlyStatistics(year: int, month: int) returns (st: MonthlyStatistics)
      ensures st.transactions == Filter(transactions, InMonth(year, month))
      ensures st.income == KindTotal(st.transactions, Income)
      ensures st.expense == KindTotal(st.transactions, Expense)
      ensures st.balance == st.income - st.expense
      ensures st.categorySummary == MonthSummary(st.transactions, categories)
      ensures SumOf(st.categorySummary, SummaryCount) == |st.transactions|
      ensures SumOf(st.categorySummary, SummaryAmount) == SumOf(st.transactions, Amount)
    {
      var monthTransactions := Filter(transactions, InMonth(year, month));
      var income := KindTotal(monthTransactions, Income);
      var expense := KindTotal(monthTransactions, Expense);
      var values := CategorySummaryOf(monthTransactions, categories);
      MonthSummaryTotals(monthTransactions, categories);
      st := MonthlyStatistics(income, expense, income - expense, monthTransactions, values);
    }

    /** `getYearlyStatistics(year)`. */
    method GetYearlyStatistics(year: int) returns (st: YearlyStatistics)
      ensures var yts := Filter(transactions, InYear(year));
        st.year == year
        && st.totalIncome == KindTotal(yts, Income) && st.totalExpense == KindTotal(yts, Expense)
        && |st.monthlyData| == 12
        && forall m :: 0 <= m < 12 ==> st.monthlyData[m] == RowOf(yts, m)
      ensures forall m :: 0 <= m < |st.monthlyData| ==>
                st.monthlyData[m].month == m + 1
                && st.monthlyData[m].balance == st.monthlyData[m].income - st.monthlyData[m].expense
      ensures SumOf(st.monthlyData, RowIncome) == st.totalIncome
      ensures SumOf(st.monthlyData, RowExpense) == st.totalExpense
      ensures st.totalBalance == st.totalIncome - st.totalExpense
    {
      var yearTransactions := Filter(transactions, InYear(year));
      var monthlyData: seq<MonthRow> := [];
      for month := 0 to 12
        invariant |monthlyData| == month
        invariant forall m :: 0 <= m < month ==> monthlyData[m] == RowOf(yearTransactions, m)
      {
        var monthTransactions := Filter(yearTransactions, ClassIs(MonthIndexOf, month));
        var income := KindTotal(monthTransactions, Income);
        var expense := KindTotal(monthTransactions, Expense);
        monthlyData := monthlyData + [MonthRow(month + 1, income, expense, income - expense)];
      }
      var totalIncome := KindTotal(yearTransactions, Income);
      var totalExpense := KindTotal(yearTransactions, Expense);
      YearRowsTotals(yearTransactions, monthlyData);
      st := YearlyStatistics(year, totalIncome, totalExpense, totalIncome - totalExpense, monthlyData);
    }
  }

  // ----- properties relating the operations

  /** After `addTransaction`, looking up the fresh id finds the new record (it is first),
      whatever the store held. */
  lemma AddThenFind(t: Transaction, ts: seq<Transaction>)
    ensures Find([t] + ts, HasId(t.id)) == Some(t)
  {
  }

  /** Deleting by id leaves no record with that id and keeps every other record in order;
      an absent id changes nothing. */
  lemma DeleteTransactionEffect(ts: seq<Transaction>, id: string)
    ensures forall t :: t in Filter(ts, IdIsNot(id)) <==> t in ts && t.id != id
    ensures IsSubsequence(Filter(ts, IdIsNot(id)), ts)
    ensures (forall j :: 0 <= j < |ts| ==> ts[j].id != id) ==> Filter(ts, IdIsNot(id)) == ts
    ensures forall t :: multiset(Filter(ts, IdIsNot(id)))[t] == if t.id != id then multiset(ts)[t] else 0
  {
    FilterCount(ts, IdIsNot(id));
    FilterMembers(ts, IdIsNot(id));
    FilterIsSubsequence(ts, IdIsNot(id));
    if forall j :: 0 <= j < |ts| ==> ts[j].id != id {
      FilterAll(ts, IdIsNot(id));
    }
  }

  /** Deleting the id of a record just added with a fresh id restores the store. */
  lemma AddThenDelete(t: Transaction, ts: seq<Transaction>)
    requires forall j :: 0 <= j < |ts| ==> ts[j].id != t.id
    ensures Filter([t] + ts, IdIsNot(t.id)) == ts
  {
    FilterAll(ts, IdIsNot(t.id));
  }

  /** Deleting a category removes every category with that id and keeps the others in order. */
  lemma DeleteCategoryEffect(cs: seq<Category>, id: string)
    ensures forall c :: c in Filter(cs, CategoryIdIsNot(id)) <==> c in cs && c.id != id
    ensures IsSubsequence(Filter(cs, CategoryIdIsNot(id)), cs)
    ensures forall c :: multiset(Filter(cs, CategoryIdIsNot(id)))[c] == if c.id != id then multiset(cs)[c] else 0
  {
    FilterCount(cs, CategoryIdIsNot(id));
    FilterMembers(cs, CategoryIdIsNot(id));
    FilterIsSubsequence(cs, CategoryIdIsNot(id));
  }
}
