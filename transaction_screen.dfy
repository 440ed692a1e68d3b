/** The transaction list screen: `applyFilters` (type, category and text search,
    then grouping by calendar day), the per-day total shown in each date header and
    the order of the date sections. */
module TransactionScreen {
  import opened Wrappers
  import opened Seqs
  import opened SeqSums
  import opened Text
  import opened Finance
  import Calendar

  // ----- the three filters

  /** The text search for an already lower-cased query `q`: the query occurs in the
      lower-cased name of the transaction's category (a category the store does not
      know matches nothing), in the lower-cased description, or in the amount's
      decimal numeral. */
  predicate SearchHit(cats: seq<Category>, q: string, t: Transaction) {
    (match FindCategory(cats, t.categoryId)
     case Some(c) => Contains(ToLower(c.name), q)
     case None => false)
    || Contains(ToLower(t.description), q)
    || Contains(IntToString(t.amount), q)
  }

  function Searched(cats: seq<Category>, q: string): Transaction -> bool {
    (t: Transaction) => SearchHit(cats, q, t)
  }

  /** Whether a transaction survives all three filters. An unset filter (a `null` type,
      no category, an empty query) lets everything through. */
  predicate Shown(cats: seq<Category>, filterType: Option<string>, filterCategory: Option<Category>,
                  searchQuery: string, t: Transaction)
  {
    (!IsSet(filterType) || t.kind == filterType.value)
    && (filterCategory.None? || t.categoryId == filterCategory.value.id)
    && (searchQuery == "" || SearchHit(cats, ToLower(searchQuery), t))
  }

  function ShownBy(cats: seq<Category>, filterType: Option<string>, filterCategory: Option<Category>,
                   searchQuery: string): Transaction -> bool
  {
    (t: Transaction) => Shown(cats, filterType, filterCategory, searchQuery, t)
  }

  // ----- grouping by day

  /** `moment(transaction.date).format('YYYY-MM-DD')`, as a calendar-day key. */
  function DayOf(t: Transaction): Calendar.DayKey {
    Calendar.KeyOf(t.date)
  }

  /** The transactions of day `k`, in list order. */
  function DayGroup(ts: seq<Transaction>, k: Calendar.DayKey): seq<Transaction> {
    Filter(ts, ClassIs(DayOf, k))
  }

  lemma GroupStep(done: seq<Transaction>, t: Transaction, k: Calendar.DayKey)
    ensures DayGroup(done + [t], k) == DayGroup(done, k) + (if DayOf(t) == k then [t] else [])
  {
    FilterAppend(done, [t], ClassIs(DayOf, k));
    assert [t][1..] == [];
    assert ClassIs(DayOf, k)(t) == (DayOf(t) == k);
  }

  /** One turn of the grouping `forEach`: the group of `t`'s day is created empty the
      first time the day occurs, and `t` is pushed onto it. */
  method GroupOne(done: seq<Transaction>, t: Transaction,
                  grouped0: map<Calendar.DayKey, seq<Transaction>>, keys0: seq<Calendar.DayKey>)
    returns (grouped: map<Calendar.DayKey, seq<Transaction>>, keys: seq<Calendar.DayKey>)
    requires keys0 == FirstSeen(done, DayOf)
    requires forall k :: k in grouped0 <==> k in keys0
    requires forall k :: k in grouped0 ==> grouped0[k] == DayGroup(done, k)
    ensures keys == FirstSeen(done + [t], DayOf)
    ensures forall k :: k in grouped <==> k in keys
    ensures forall k :: k in grouped ==> grouped[k] == DayGroup(done + [t], k)
  {
    var dateKey := DayOf(t);
    var group;
    keys := keys0;
    if dateKey in grouped0 {
      group := grouped0[dateKey];
    } else {
      FilterNone(done, ClassIs(DayOf, dateKey));
      group := [];
      keys := keys + [dateKey];
    }
    grouped := grouped0[dateKey := group + [t]];
    forall k | k in grouped ensures grouped[k] == DayGroup(done + [t], k) {
      GroupStep(done, t, k);
    }
    FirstSeenSnoc(done, t, DayOf);
  }

  /** The `forEach` that fills `grouped`: one group per day of `ts`; `keys` is the order in
      which the groups were created, which is the order `Object.keys` lists date keys in
      (they are not array indices). */
  method GroupByDay(ts: seq<Transaction>)
    returns (grouped: map<Calendar.DayKey, seq<Transaction>>, keys: seq<Calendar.DayKey>)
    ensures keys == FirstSeen(ts, DayOf)
    ensures forall k :: k in grouped <==> k in keys
    ensures forall k :: k in grouped ==> grouped[k] == DayGroup(ts, k)
  {
    grouped, keys := map[], [];
    var i := 0;
    while i < |ts|
      invariant 0 <= i <= |ts|
      invariant keys == FirstSeen(ts[..i], DayOf)
      invariant forall k :: k in grouped <==> k in keys
      invariant forall k :: k in grouped ==> grouped[k] == DayGroup(ts[..i], k)
    {
      grouped, keys := GroupOne(ts[..i], ts[i], grouped, keys);
      PrefixSnoc(ts, i);
      i := i + 1;
    }
    assert ts[..i] == ts;
  }

  /** The three filters applied one after another, each only when it is set, keep the
      transactions `Shown` accepts. */
  lemma FilterSteps(ts: seq<Transaction>, cats: seq<Category>, filterType: Option<string>,
                    filterCategory: Option<Category>, searchQuery: string)
    ensures var a := if IsSet(filterType) then Filter(ts, IsKind(filterType.value)) else ts;
      var b := if filterCategory.Some? then Filter(a, UsesCategory(filterCategory.value.id)) else a;
      (if searchQuery != "" then Filter(b, Searched(cats, ToLower(searchQuery))) else b)
        == Filter(ts, ShownBy(cats, filterType, filterCategory, searchQuery))
  {
    var typeOk := (t: Transaction) => !IsSet(filterType) || t.kind == filterType.value;
    var categoryOk := (t: Transaction) => filterCategory.None? || t.categoryId == filterCategory.value.id;
    var searchOk := (t: Transaction) => searchQuery == "" || SearchHit(cats, ToLower(searchQuery), t);
    var firstTwo := (t: Transaction) => typeOk(t) && categoryOk(t);
    var a := if IsSet(filterType) then Filter(ts, IsKind(filterType.value)) else ts;
    var b := if filterCategory.Some? then Filter(a, UsesCategory(filterCategory.value.id)) else a;
    assert a == Filter(ts, typeOk) by {
      OptionalFilter(ts, IsSet(filterType), IsKind(filterType.GetOr("")), typeOk);
    }
    assert b == Filter(ts, firstTwo) by {
      OptionalFilter(a, filterCategory.Some?,
                     UsesCategory(if filterCategory.Some? then filterCategory.value.id else ""), categoryOk);
      FilterTwice(ts, typeOk, categoryOk, firstTwo);
    }
    assert (if searchQuery != "" then Filter(b, Searched(cats, ToLower(searchQuery))) else b)
        == Filter(b, searchOk) by {
      OptionalFilter(b, searchQuery != "", Searched(cats, ToLower(searchQuery)), searchOk);
    }
    FilterTwice(ts, firstTwo, searchOk, ShownBy(cats, filterType, filterCategory, searchQuery));
  }

  /** `applyFilters(transactionList)`: the list after each set filter in turn, and its
      grouping by day. `cats` are the store's categories, which `getCategoryById` searches. */
  method ApplyFilters(transactionList: seq<Transaction>, cats: seq<Category>, filterType: Option<string>,
                      filterCategory: Option<Category>, searchQuery: string)
    returns (filtered: seq<Transaction>, grouped: map<Calendar.DayKey, seq<Transaction>>,
             keys: seq<Calendar.DayKey>)
    ensures filtered == Filter(transactionList, ShownBy(cats, filterType, filterCategory, searchQuery))
    ensures keys == FirstSeen(filtered, DayOf)
    ensures forall k :: k in grouped <==> k in keys
    ensures forall k :: k in grouped ==> grouped[k] == DayGroup(filtered, k)
  {
    filtered := transactionList;
    if IsSet(filterType) {
      filtered := Filter(filtered, IsKind(filterType.value));
    }
    if filterCategory.Some? {
      filtered := Filter(filtered, UsesCategory(filterCategory.value.id));
    }
    if searchQuery != "" {
      var query := ToLower(searchQuery);
      filtered := Filter(filtered, Searched(cats, query));
    }
    FilterSteps(transactionList, cats, filterType, filterCategory, searchQuery);
    grouped, keys := GroupByDay(filtered);
  }

  // ----- what the filters keep

  /** The filtered list is an order-preserving subsequence of the input holding exactly
      the transactions that pass every set filter; with no filter set it is the input. */
  lemma FilteredMeaning(ts: seq<Transaction>, cats: seq<Category>, filterType: Option<string>,
                        filterCategory: Option<Category>, searchQuery: string)
    ensures var r := Filter(ts, ShownBy(cats, filterType, filterCategory, searchQuery));
      IsSubsequence(r, ts)
      && (forall t :: t in r <==> t in ts && Shown(cats, filterType, filterCategory, searchQuery, t))
      && (IsSet(filterType) ==> forall i :: 0 <= i < |r| ==> r[i].kind == filterType.value)
      && (filterCategory.Some? ==> forall i :: 0 <= i < |r| ==> r[i].categoryId == filterCategory.value.id)
      && (!IsSet(filterType) && filterCategory.None? && searchQuery == "" ==> r == ts)
  {
    var p := ShownBy(cats, filterType, filterCategory, searchQuery);
    var r := Filter(ts, p);
    FilterIsSubsequence(ts, p);
    FilterMembers(ts, p);
    forall i | 0 <= i < |r| ensures Shown(cats, filterType, filterCategory, searchQuery, r[i]) {
      assert p(r[i]);
    }
    if !IsSet(filterType) && filterCategory.None? && searchQuery == "" {
      FilterAll(ts, p);
    }
  }

  /** The search ignores case: queries that lower-case alike keep the same transactions. */
  lemma SearchIgnoresCase(ts: seq<Transaction>, cats: seq<Category>, filterType: Option<string>,
                          filterCategory: Option<Category>, q1: string, q2: string)
    requires ToLower(q1) == ToLower(q2)
    ensures Filter(ts, ShownBy(cats, filterType, filterCategory, q1))
         == Filter(ts, ShownBy(cats, filterType, filterCategory, q2))
  {
    assert |q1| == |ToLower(q1)| == |q2|;
    FilterExt(ts, ShownBy(cats, filterType, filterCategory, q1), ShownBy(cats, filterType, filterCategory, q2));
  }

  /** Searching for a transaction's amount, as `toString` writes it, finds the transaction. */
  lemma AmountFindsItself(cats: seq<Category>, t: Transaction)
    ensures Shown(cats, None, None, IntToString(t.amount), t)
  {
    ToLowerNumeral(t.amount);
    var a := IntToString(t.amount);
    assert a <= a[0..];
  }

  // ----- the groups

  /** Every filtered transaction is in the group of its own day, each group holds only
      transactions of its day in list order, and the groups in key order together hold
      exactly the filtered transactions. */
  lemma GroupsPartition(ts: seq<Transaction>)
    ensures var keys := FirstSeen(ts, DayOf);
      (forall t :: t in ts ==> DayOf(t) in keys && t in DayGroup(ts, DayOf(t)))
      && (forall k :: k in keys ==> IsSubsequence(DayGroup(ts, k), ts))
      && (forall k, t :: k in keys && t in DayGroup(ts, k) ==> DayOf(t) == k)
      && multiset(Concat(keys, ClassFilter(ts, DayOf))) == multiset(ts)
  {
    var keys := FirstSeen(ts, DayOf);
    forall t | t in ts ensures DayOf(t) in keys && t in DayGroup(ts, DayOf(t)) {
      FilterMembers(ts, ClassIs(DayOf, DayOf(t)));
      var i :| 0 <= i < |ts| && ts[i] == t;
      assert ClassIs(DayOf, DayOf(t))(t);
    }
    forall k | k in keys
      ensures IsSubsequence(DayGroup(ts, k), ts) && forall t :: t in DayGroup(ts, k) ==> DayOf(t) == k
    {
      FilterIsSubsequence(ts, ClassIs(DayOf, k));
      FilterMembers(ts, ClassIs(DayOf, k));
    }
    PartitionMultiset(ts, keys, DayOf);
  }

  // ----- sections and their totals

  /** One date section: its day and its transactions. */
  datatype Section = Section(title: Calendar.DayKey, data: seq<Transaction>)

  function SectionTitle(s: Section): Calendar.DayKey { s.title }

  /** `Object.keys(grouped).sort((a, b) => new Date(b) - new Date(a))`: latest day first. */
  function SectionOrder(keys: seq<Calendar.DayKey>): seq<Calendar.DayKey> {
    SortDesc(keys, Calendar.KeySlot)
  }

  lemma SectionOrderMembers(keys: seq<Calendar.DayKey>)
    ensures multiset(SectionOrder(keys)) == multiset(keys)
    ensures forall k :: k in SectionOrder(keys) <==> k in keys
  {
    SortDescCorrect(keys, Calendar.KeySlot);
    forall k ensures k in SectionOrder(keys) <==> k in keys {
      assert k in SectionOrder(keys) <==> k in multiset(SectionOrder(keys));
    }
  }

  /** The `sections` list: one section per day key, latest day first. */
  function Sections(grouped: map<Calendar.DayKey, seq<Transaction>>, keys: seq<Calendar.DayKey>): seq<Section>
    requires forall k :: k in keys ==> k in grouped
  {
    var order := SectionOrder(keys);
    SectionOrderMembers(keys);
    seq(|order|, j requires 0 <= j < |order| => Section(order[j], grouped[order[j]]))
  }

  /** There is one section per key, sections run from the latest day to the earliest, and
      each holds the group of its day. */
  lemma SectionsOrdered(grouped: map<Calendar.DayKey, seq<Transaction>>, keys: seq<Calendar.DayKey>)
    requires forall k :: k in keys ==> k in grouped
    ensures var ss := Sections(grouped, keys);
      |ss| == |keys|
      && multiset(seq(|ss|, j requires 0 <= j < |ss| => ss[j].title)) == multiset(keys)
      && (forall i, j :: 0 <= i < j < |ss| ==> Calendar.KeySlot(ss[i].title) >= Calendar.KeySlot(ss[j].title))
      && (forall j :: 0 <= j < |ss| ==> ss[j].title in grouped && ss[j].data == grouped[ss[j].title])
  {
    var ss := Sections(grouped, keys);
    var order := SectionOrder(keys);
    SortDescCorrect(keys, Calendar.KeySlot);
    SectionOrderMembers(keys);
    assert seq(|ss|, j requires 0 <= j < |ss| => ss[j].title) == order;
  }

  /** A transaction's effect on `dayTotal`: income adds, anything else subtracts. */
  function DaySigned(t: Transaction): int {
    if t.kind == Income then t.amount else -t.amount
  }

  /** The `dayTotal` of a section's transactions. */
  function DayTotal(data: seq<Transaction>): int {
    SumOf(data, DaySigned)
  }

  function NotIncome(t: Transaction): bool { t.kind != Income }

  /** `dayTotal` is the income total minus the total of every non-income transaction; when
      the day holds only income and expense records it is the day's balance. */
  lemma DayTotalSplit(data: seq<Transaction>)
    ensures DayTotal(data) == KindTotal(data, Income) - SumOf(Filter(data, NotIncome), Amount)
    ensures (forall i :: 0 <= i < |data| ==> data[i].kind == Income || data[i].kind == Expense)
            ==> DayTotal(data) == Balance(data)
  {
    var incomeW := KindWeight(Income);
    var otherW := (t: Transaction) => if NotIncome(t) then t.amount else 0;
    KindTotalMasked(data, Income);
    FilterSumMasked(data, NotIncome, Amount, otherW);
    SumOfSub(data, incomeW, otherW, DaySigned);
    if forall i :: 0 <= i < |data| ==> data[i].kind == Income || data[i].kind == Expense {
      BalanceIsSignedSum(data);
      SumOfPointwise(data, DaySigned, SignedAmount);
    }
  }
}
