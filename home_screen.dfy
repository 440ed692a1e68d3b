/** The home screen: the greeting chosen by the hour, and what `loadData` shows: the
    all-time balance, the current month's income and expense, and the five newest
    transactions. */
module HomeScreen {
  import opened Seqs
  import opened Finance

  /** The greeting band of an hour of the day: 0 morning, 1 midday, 2 afternoon, 3 evening. */
  function Band(hour: int): (b: int)
    ensures 0 <= b <= 3
  {
    if hour < 12 then 0 else if hour < 15 then 1 else if hour < 18 then 2 else 3
  }

  const Greetings: seq<string> := ["Selamat Pagi", "Selamat Siang", "Selamat Sore", "Selamat Malam"]

  /** `getGreeting()` for the clock's `getHours()`. */
  function GetGreeting(hour: int): (r: string)
    ensures r in Greetings
  {
    if hour < 12 then "Selamat Pagi"
    else if hour < 15 then "Selamat Siang"
    else if hour < 18 then "Selamat Sore"
    else "Selamat Malam"
  }

  /** Hours 0-11 greet the morning, 12-14 midday, 15-17 the afternoon and 18-23 the evening;
      the greeting is the one of the hour's band, and later hours never get an earlier band. */
  lemma GreetingBands(hour: int, later: int)
    requires 0 <= hour < 24
    ensures 0 <= hour <= 11 <==> GetGreeting(hour) == "Selamat Pagi"
    ensures 12 <= hour <= 14 <==> GetGreeting(hour) == "Selamat Siang"
    ensures 15 <= hour <= 17 <==> GetGreeting(hour) == "Selamat Sore"
    ensures 18 <= hour <= 23 <==> GetGreeting(hour) == "Selamat Malam"
    ensures GetGreeting(hour) == Greetings[Band(hour)]
    ensures hour <= later ==> Band(hour) <= Band(later)
  {
  }

  /** What the home screen shows after `loadData`. */
  datatype HomeData = HomeData(balance: int, income: int, expense: int, recent: seq<Transaction>)

  /** `loadData()`, with the clock's `getMonth()` (0-based) and `getFullYear()` as parameters. */
  method LoadData(store: DataService, nowMonth: int, nowYear: int) returns (h: HomeData)
    ensures var month := Filter(store.transactions, InMonth(nowYear, nowMonth + 1));
      h.balance == store.GetBalance()
      && h.income == KindTotal(month, Income) && h.expense == KindTotal(month, Expense)
    ensures h.recent == Take(store.GetTransactions(NoFilters), 5)
    ensures |h.recent| <= 5 && h.recent == store.GetTransactions(NoFilters)[..|h.recent|]
    ensures forall t :: t in h.recent ==> t in store.transactions
  {
    var currentMonth := nowMonth + 1;
    var currentYear := nowYear;
    var monthStats := store.GetMonthlyStatistics(currentYear, currentMonth);
    var all := store.GetTransactions(NoFilters);
    h := HomeData(store.GetBalance(), monthStats.income, monthStats.expense, Take(all, 5));
    assert forall t :: t in h.recent ==> t in all;
  }
}
