# ZeinFlow cash-flow core, modelled in Dafny

ZeinFlow is a personal cash-flow book kept in Indonesian rupiah. It has two clients:

- **The React Native app.** It keeps every transaction and category in one in-memory
  store, `DataService`. The store offers:
  - add, update and delete for transactions and categories;
  - a guard that refuses to delete a category still in use;
  - a filtered query, newest first;
  - the all-time balance;
  - monthly statistics with a per-category summary;
  - yearly statistics with twelve month rows.

  Its screens add small rules on top:
  - the amount field's thousands grouping and the validation before a save;
  - the transaction list's filters and its day sections;
  - the category form's checks;
  - the report screen's month and year navigation;
  - the home screen's greeting and summary.
- **The Android app.** It brings:
  - Room type converters, date-boundary helpers and currency parsing;
  - the first-start seeding of the category table;
  - the list logic of syncing single transactions to a `transactions.json` file on Google Drive.

The project models these pieces as follows:

- **`Finance`** models the store as a class `DataService`.
  - Its fields `transactions` and `categories` are sequences, and its methods reassign them.
  - Its simple queries (`GetTransactions`, `GetTransactionById`, `GetCategories`, `GetCategoryById`, `GetBalance`) are functions that read the object; the two statistics queries, `GetMonthlyStatistics` and `GetYearlyStatistics`, are methods with the source's loops.
  - Each operation is tied to specification functions on sequences: `Query`, `Balance`, `InMonth`, `MonthSummary`, `RowOf`.
  - Lemmas prove what the operation promises: membership, order and stability of the query, totals of the statistics, and "nothing else changes".
- **The screens** (`TransactionScreen`, `AddTransactionScreen`, `CategoriesScreen`, `ReportsScreen`, `HomeScreen`) are mostly pure functions and lemmas. The exceptions:
  - `applyFilters`' grouping `forEach` is the loop of the method `TransactionScreen.GroupByDay`, with `TransactionScreen.GroupOne` its body, and `TransactionScreen.ApplyFilters` is the method that filters and then calls it;
  - the report screen's selected month and year are the class `ReportsScreen.PeriodSelector`, with `ReportsScreen.NextThenPrev` a method over it;
  - `CategoriesScreen.SaveCategory` and `CategoriesScreen.HandleDeleteCategory` are methods that change the store, and `HomeScreen.LoadData` is a method that reads it.
- **The Android pieces** (`Converters`, `DateUtils`, `CurrencyUtils`, `CategoryRepository`, `DriveSync`):
  - `java.util.Calendar` is a small class whose `set` calls the date helpers make one at a time.
  - The category table is a class with an auto-increment counter, seeded by a loop.
  - The Drive is a class holding the folder and the file content.
- **Shared modules:**
  - `Calendar` is the proleptic Gregorian calendar;
  - `Text` holds the JavaScript and Kotlin string built-ins the code uses;
  - `Seqs` and `SeqSums` hold filter, stable sort, sums and partitions;
  - `Wrappers` holds `Option` and `Result`.

How time and amounts are represented:

- **Amounts** are integers: whole rupiah.
- **Dates** are local wall-clock records. Comparing two dates means comparing their `Calendar.Ordinal`.
- **The clock and fresh ids** are parameters: the hour, "now" and `Date.now()`.

## Model

| member | source | states |
|---|---|---|
| `Finance.DataService.constructor` | zeinflow/src/services/DataService.js:5-9 | a new store holds no transactions and no categories and is not initialised |
| `Finance.DataService.Initialize` | zeinflow/src/services/DataService.js:11-55 | a second call changes nothing; a first call takes the stored transactions when there are any, takes the stored categories or else the twelve defaults, and marks the store initialised |
| `Finance.DefaultCategories` | zeinflow/src/services/DataService.js:76-94 | the seed list; its contents are stated by `Finance.DefaultCategoriesShape` |
| `Finance.DefaultCategoriesShape` | zeinflow/src/services/DataService.js:76-94 | the seed has twelve categories with ids "1" to "12", four income then eight expense, none with timestamps |
| `Finance.NewTransaction` | zeinflow/src/services/DataService.js:123-128 | the stored record carries exactly the caller's fields and the fresh id; createdAt is the first clock reading and updatedAt the second, which may differ |
| `Finance.MergeTransaction` | zeinflow/src/services/DataService.js:138-142 | the record `{...t, ...updates, updatedAt}` builds: updatedAt is always the new reading; the other fields are stated by `Finance.MergeTransactionFields` |
| `Finance.DataService.AddTransaction` | zeinflow/src/services/DataService.js:122-133 | the new record goes to index 0 and the old records follow unchanged; the categories are untouched |
| `Finance.MergeTransactionFields` | zeinflow/src/services/DataService.js:138-142 | each of id, type, amount, categoryId, description, date and createdAt is the patch's value when the patch carries it and the record's otherwise; an empty patch only refreshes updatedAt; merging twice is merging once |
| `Finance.DataService.UpdateTransaction` | zeinflow/src/services/DataService.js:135-147 | an absent id returns null and changes nothing; otherwise only the first record with the id is replaced by its merge, the length and all other records stay, and the merged record is returned |
| `Finance.DataService.DeleteTransaction` | zeinflow/src/services/DataService.js:149-152 | the new list is the old one without the records of that id; the categories are untouched |
| `Finance.DeleteTransactionEffect` | zeinflow/src/services/DataService.js:149-152 | after a delete no record has the id, every other record stays in its order and as often as before, and an absent id changes nothing |
| `Finance.AddThenFind` | zeinflow/src/services/DataService.js:130 | after an add, finding the fresh id gives the new record, whatever the store held |
| `Finance.AddThenDelete` | zeinflow/src/services/DataService.js:130-151 | deleting the id of a record just added with a fresh id restores the previous list |
| `Finance.Passes` | zeinflow/src/services/DataService.js:157-171 | a record passes when it meets every set filter: type, category, and the inclusive start and end dates; related to the filter chain by `Finance.SelectedIsFilter` |
| `Finance.Selected` | zeinflow/src/services/DataService.js:155-171 | the chain of optional filters; `Finance.SelectedIsFilter` proves it is one order-preserving filter by `Finance.Passes` |
| `Finance.Query` | zeinflow/src/services/DataService.js:154-174 | the filtered records sorted by date, latest first; `Finance.QueryCorrect` proves the multiset, the order and the stability |
| `Finance.KindCategorySteps` | zeinflow/src/services/DataService.js:157-163 | the optional type and category filters, applied one after the other, keep exactly what passes both |
| `Finance.DateSteps` | zeinflow/src/services/DataService.js:165-171 | the inclusive start and end date filters, after the first two, keep exactly what passes all four |
| `Finance.SelectedIsFilter` | zeinflow/src/services/DataService.js:155-171 | the whole chain of optional filters is one order-preserving filter by "passes every set filter" |
| `Finance.QueryCorrect` | zeinflow/src/services/DataService.js:154-174 | the result holds each passing record exactly as often as the store does and nothing else; it is ordered by date, latest first; records with the same date keep their stored order |
| `Finance.QueryNoFilters` | zeinflow/src/services/DataService.js:154-174 | with no filter set the result is a reordering of the whole store |
| `Finance.DataService.GetTransactions` | zeinflow/src/services/DataService.js:154-174 | the store's query: the passing records, as a multiset and by membership, sorted latest first; it reads the store and changes nothing |
| `Finance.DataService.GetTransactionById` | zeinflow/src/services/DataService.js:176-178 | none exactly when no record has the id; otherwise the first stored record with that id, as `find` returns |
| `Finance.NewCategory` | zeinflow/src/services/DataService.js:182-187 | the new category carries exactly the caller's fields and the fresh id; createdAt is the first clock reading and updatedAt the second |
| `Finance.MergeCategory` | zeinflow/src/services/DataService.js:197-201 | the category `{...c, ...updates, updatedAt}` builds: updatedAt is always the new reading; the other fields are stated by `Finance.MergeCategoryFields` |
| `Finance.DataService.AddCategory` | zeinflow/src/services/DataService.js:181-192 | the new category goes at the end and the old ones stay in front unchanged |
| `Finance.MergeCategoryFields` | zeinflow/src/services/DataService.js:197-201 | each of id, name, type, icon, color and createdAt is the patch's value when the patch carries it and the category's otherwise; an empty patch only refreshes updatedAt; merging twice is merging once |
| `Finance.DataService.UpdateCategory` | zeinflow/src/services/DataService.js:194-206 | an absent id returns null and changes nothing; otherwise only the first category with the id is merged, length and the rest unchanged |
| `Finance.DataService.DeleteCategory` | zeinflow/src/services/DataService.js:208-217 | the in-use error is raised exactly when some transaction uses the id, and then nothing changes; otherwise every category with that id goes |
| `Finance.DeleteCategoryEffect` | zeinflow/src/services/DataService.js:215 | a category delete keeps exactly the categories with another id, in order and each as often as before |
| `Finance.DataService.GetCategories` | zeinflow/src/services/DataService.js:226-231 | the result is an order-preserving subsequence of the categories holding every category of the requested type, or every category when no type is given, as often as the store holds it, and no other |
| `Finance.DataService.GetCategoryById` | zeinflow/src/services/DataService.js:233-235 | none exactly when no category has the id; otherwise the first stored category with that id, as `find` returns |
| `SeqSums.Find` | zeinflow/src/services/DataService.js:177 | none exactly when no element satisfies the predicate; otherwise the first element that does, as `Array.prototype.find` returns |
| `Finance.KindTotalMasked` | zeinflow/src/services/DataService.js:239-245 | the total of a type equals the sum over all records of the amount masked to that type |
| `Finance.BalanceIsSignedSum` | zeinflow/src/services/DataService.js:238-248 | the balance is the sum of signed amounts: income counts plus, expense minus and any other type zero |
| `Finance.BalanceSteps` | zeinflow/src/services/DataService.js:238-248 | an empty store has balance 0, and a prepended record shifts the balance by its signed amount |
| `Finance.DataService.GetBalance` | zeinflow/src/services/DataService.js:238-248 | the balance of the store is the signed sum of its transactions |
| `Finance.KindTotal` | zeinflow/src/services/DataService.js:239-245 | the `filter` by type followed by the `reduce` of amounts; `Finance.KindTotalMasked` states it as a masked sum over all records |
| `Finance.JsYear` | zeinflow/src/services/DataService.js:251 | `new Date(year, …)` reads a year from 0 to 99 as 1900 to 1999; its effect on the month window is stated by `Finance.InMonthMeaning` |
| `Finance.MonthStart` | zeinflow/src/services/DataService.js:251 | `new Date(year, month - 1, 1)`: the first day of the month at 00:00; stated by `Finance.InMonthMeaning` |
| `Finance.MonthEnd` | zeinflow/src/services/DataService.js:252 | `new Date(year, month, 0)`: the last day of the month at 00:00; stated by `Finance.InMonthMeaning` and `Finance.LastDayAfterMidnightExcluded` |
| `Finance.InMonth` | zeinflow/src/services/DataService.js:254-257 | the inclusive window between the two bounds; `Finance.InMonthMeaning` states which records it holds |
| `Finance.InMonthMeaning` | zeinflow/src/services/DataService.js:251-257 | a record counts for a month exactly when it lies in that calendar month and is not on the month's last day after 00:00:00.000; a year from 0 to 99 means 1900 to 1999 and a month outside 1..12 rolls over, as JavaScript's `Date` does |
| `Finance.LastDayAfterMidnightExcluded` | zeinflow/src/services/DataService.js:252-256 | 31 January 2024 at 08:00 is not counted in January 2024 |
| `Finance.ObjectKeyOrder` | zeinflow/src/services/DataService.js:286 | the order `Object.values` lists keys in: array-index keys ascending, then the rest in insertion order; `Finance.ObjectKeyOrderPermutation` proves it lists every first-seen key once |
| `Finance.ObjectKeyOrderPermutation` | zeinflow/src/services/DataService.js:286 | the order in which `Object.values` lists the summary is a permutation of the category ids in the order each was first seen |
| `Finance.SummaryStep` | zeinflow/src/services/DataService.js:267-279 | one more transaction adds its amount and one count to its own category's entry and to no other |
| `Finance.TallyStep` | zeinflow/src/services/DataService.js:267-279 | one turn of the loop keeps every entry equal to what the transactions seen so far give |
| `Finance.SummaryUnseen` | zeinflow/src/services/DataService.js:269-275 | the entry of a category not yet seen starts at amount 0 and count 0, with the category looked up in the store |
| `Finance.TallyOne` | zeinflow/src/services/DataService.js:267-279 | one turn of the loop: the entry is created the first time its category occurs, then receives the amount and a count; the set of keys follows first occurrence |
| `Finance.TallyByCategory` | zeinflow/src/services/DataService.js:267-279 | after the loop there is one entry per category used, each holding that category's total and number of transactions |
| `Finance.ValuesIn` | zeinflow/src/services/DataService.js:286 | lists one entry per key, in the order of the keys |
| `Finance.SummaryValues` | zeinflow/src/services/DataService.js:286 | listing the finished entries in `Object.values` order gives the per-category summary |
| `Finance.CategorySummaryOf` | zeinflow/src/services/DataService.js:267-286 | the loop followed by `Object.values` yields exactly the per-category summary of the month's transactions |
| `Finance.MonthSummary` | zeinflow/src/services/DataService.js:267-286 | the per-category summary of the month; `Finance.CategorySummaryOf` proves the loop yields it and `Finance.MonthSummaryTotals` its totals |
| `Finance.MonthSummaryTotals` | zeinflow/src/services/DataService.js:267-286 | the summary's counts add up to the number of month transactions and its amounts to their total |
| `Finance.DataService.GetMonthlyStatistics` | zeinflow/src/services/DataService.js:250-288 | the month's transactions are the records in the month window in store order; income and expense are their totals by type; balance is income minus expense; the summary counts and amounts add up to the month's number and total |
| `Finance.MonthsPartitionKind` | zeinflow/src/services/DataService.js:297-317 | the twelve month totals of a type add up to the year's total of that type |
| `Finance.InYear` | zeinflow/src/services/DataService.js:291-294 | a record belongs to the year when its date has that full year; used by `Finance.DataService.GetYearlyStatistics` |
| `Finance.RowOf` | zeinflow/src/services/DataService.js:297-316 | the row of one month: its number 1 to 12, its income, its expense and its balance; `Finance.YearRowsTotals` proves the rows add up to the year |
| `Finance.YearRowsTotals` | zeinflow/src/services/DataService.js:297-325 | rows built for every month add up to the year's income and expense |
| `Finance.DataService.GetYearlyStatistics` | zeinflow/src/services/DataService.js:290-334 | exactly twelve rows numbered 1 to 12, each the totals of its month with balance = income - expense; the rows add up to totalIncome and totalExpense; totalBalance = totalIncome - totalExpense |
| `TransactionScreen.GroupStep` | zeinflow/src/screens/TransactionScreen.js:70-76 | a transaction appended to the list extends the group of its own day and no other |
| `TransactionScreen.GroupOne` | zeinflow/src/screens/TransactionScreen.js:70-76 | one turn of the grouping loop: a day's group is created empty the first time the day occurs and the transaction is pushed onto it |
| `TransactionScreen.GroupByDay` | zeinflow/src/screens/TransactionScreen.js:69-76 | after the loop there is one group per day that occurs, holding that day's transactions in list order; keys are in order of first occurrence |
| `TransactionScreen.FilterSteps` | zeinflow/src/screens/TransactionScreen.js:43-66 | the three optional filters, each applied only when set, keep exactly the transactions that pass all of them |
| `TransactionScreen.SearchHit` | zeinflow/src/screens/TransactionScreen.js:57-64 | a transaction matches the lower-cased query through its category's name, its description or its amount's numeral; `TransactionScreen.SearchIgnoresCase` and `TransactionScreen.AmountFindsItself` state it |
| `TransactionScreen.Shown` | zeinflow/src/screens/TransactionScreen.js:45-66 | a transaction is shown when it meets every set filter; `TransactionScreen.FilteredMeaning` proves the list is exactly these |
| `TransactionScreen.ShownBy` | zeinflow/src/screens/TransactionScreen.js:45-66 | `TransactionScreen.Shown` as a predicate value; `TransactionScreen.FilterSteps` proves the three filters in turn equal one filter by it |
| `TransactionScreen.ApplyFilters` | zeinflow/src/screens/TransactionScreen.js:42-80 | the filtered list is the input filtered by every set filter; the groups are that list's days |
| `TransactionScreen.FilteredMeaning` | zeinflow/src/screens/TransactionScreen.js:42-66 | the filtered list is an order-preserving subsequence holding exactly the passing transactions; with a type set all have that type; with a category set all have its id; with nothing set it is the input |
| `TransactionScreen.SearchIgnoresCase` | zeinflow/src/screens/TransactionScreen.js:56-66 | two queries that lower-case alike keep the same transactions |
| `TransactionScreen.AmountFindsItself` | zeinflow/src/screens/TransactionScreen.js:63 | searching for a transaction's amount as `toString` writes it finds that transaction |
| `TransactionScreen.GroupsPartition` | zeinflow/src/screens/TransactionScreen.js:69-76 | every filtered transaction is in its own day's group; each group holds only its day, in list order; all groups together are exactly the filtered list |
| `TransactionScreen.SectionOrderMembers` | zeinflow/src/screens/TransactionScreen.js:166-167 | the sorted day keys are a permutation of the keys |
| `TransactionScreen.SectionOrder` | zeinflow/src/screens/TransactionScreen.js:166-167 | the day keys sorted latest first; `TransactionScreen.SectionOrderMembers` proves it is a permutation of the keys |
| `TransactionScreen.Sections` | zeinflow/src/screens/TransactionScreen.js:166-171 | one section per key in that order, holding its day's group; stated by `TransactionScreen.SectionsOrdered` |
| `TransactionScreen.SectionsOrdered` | zeinflow/src/screens/TransactionScreen.js:166-171 | one section per day key, latest day first, each holding its day's group |
| `TransactionScreen.DayTotalSplit` | zeinflow/src/screens/TransactionScreen.js:149-151 | a day's total is its income minus every non-income amount, and the day's balance when it holds only income and expense |
| `TransactionScreen.DayTotal` | zeinflow/src/screens/TransactionScreen.js:149-151 | the `reduce` adding income and subtracting every other amount; `TransactionScreen.DayTotalSplit` states it as income minus the rest |
| `AddTransactionScreen.InsertDotsIsGroup` | zeinflow/src/screens/AddTransactionScreen.js:65 | the regular expression puts the dots where grouping in threes from the right puts them |
| `AddTransactionScreen.GroupWellGrouped` | zeinflow/src/screens/AddTransactionScreen.js:65 | grouping a non-empty digit string gives a first group of one to three digits, then groups of exactly three, with no dot at either end |
| `AddTransactionScreen.GroupDeleteDots` | zeinflow/src/screens/AddTransactionScreen.js:65 | deleting the dots of the grouping gives back the digits |
| `AddTransactionScreen.GroupKeepDigits` | zeinflow/src/screens/AddTransactionScreen.js:65 | keeping only the digits of the grouping gives back the digits |
| `AddTransactionScreen.InsertDots` | zeinflow/src/screens/AddTransactionScreen.js:65 | the regular-expression replace, one digit at a time; `AddTransactionScreen.InsertDotsIsGroup` proves it equals grouping in threes from the right |
| `AddTransactionScreen.FormatCurrency` | zeinflow/src/screens/AddTransactionScreen.js:63-66 | the digits of the input with dots inserted; `AddTransactionScreen.FormatCurrencyCorrect` states its content |
| `AddTransactionScreen.FormatCurrencyCorrect` | zeinflow/src/screens/AddTransactionScreen.js:63-66 | the output has only digits and dots; deleting the dots gives the input's digits in order; with digits it is well grouped, without them empty; formatting twice is formatting once |
| `AddTransactionScreen.FormatMillionExample` | zeinflow/src/screens/AddTransactionScreen.js:63-66 | "1500000" is shown as "1.500.000" |
| `AddTransactionScreen.FormatMixedExample` | zeinflow/src/screens/AddTransactionScreen.js:64 | every character that is not a digit is dropped: "Rp 12,5" becomes "125" |
| `AddTransactionScreen.HandleSave` | zeinflow/src/screens/AddTransactionScreen.js:25-48 | the invalid-amount alert exactly when the dot-free amount is empty or zero; the category alert exactly when the amount is valid but no category is chosen; otherwise a record with the amount's value (positive), the chosen category's id, the trimmed description, the type and the date |
| `AddTransactionScreen.FormattedAmountIsClean` | zeinflow/src/screens/AddTransactionScreen.js:68-71 | whatever was typed, the field once formatted is digits after its dots are deleted |
| `AddTransactionScreen.ZeroAmountsRejected` | zeinflow/src/screens/AddTransactionScreen.js:26-30 | "0" and "0.000" are rejected as amounts |
| `AddTransactionScreen.ChangeType` | zeinflow/src/screens/AddTransactionScreen.js:100-103 | switching the type sets the new type and clears the chosen category |
| `AddTransactionScreen.SaveAfterTypeChange` | zeinflow/src/screens/AddTransactionScreen.js:32-35 | after a type switch a save with a valid amount asks for a category |
| `ReportsScreen.PeriodSelector.constructor` | zeinflow/src/screens/ReportsScreen.js:17-18 | the selection starts at the clock's month (1-based) and year |
| `ReportsScreen.PeriodSelector.ChangeMonth` | zeinflow/src/screens/ReportsScreen.js:53-69 | the month stays in 1..12 and the new selection is the neighbouring month in the given direction |
| `ReportsScreen.PeriodSelector.ChangeYear` | zeinflow/src/screens/ReportsScreen.js:71-73 | the year moves by one in the given direction and the month stays |
| `ReportsScreen.StepMonth` | zeinflow/src/screens/ReportsScreen.js:53-69 | the month after or before the selection; stated by `ReportsScreen.StepMonthCases`, `ReportsScreen.StepMonthMovesByOne` and `ReportsScreen.StepMonthInverse` |
| `ReportsScreen.StepYear` | zeinflow/src/screens/ReportsScreen.js:71-73 | the year after or before; stated by `ReportsScreen.PeriodSelector.ChangeYear` |
| `ReportsScreen.StepMonthCases` | zeinflow/src/screens/ReportsScreen.js:53-69 | the month stays in 1..12; "next" from 12 gives January of the next year, "prev" from 1 December of the previous one; other months move by one within the year |
| `ReportsScreen.StepMonthMovesByOne` | zeinflow/src/screens/ReportsScreen.js:53-69 | on the line of months, "next" moves one month forward and "prev" one back |
| `ReportsScreen.StepMonthInverse` | zeinflow/src/screens/ReportsScreen.js:53-69 | "next" then "prev", and "prev" then "next", come back to the same month and year |
| `ReportsScreen.NextThenPrev` | zeinflow/src/screens/ReportsScreen.js:53-69 | two clicks on one selector, "next" then "prev", restore its selection |
| `ReportsScreen.Breakdown` | zeinflow/src/screens/ReportsScreen.js:163-164 | the summary sorted by amount, largest first; `ReportsScreen.BreakdownCorrect` proves it a stable sorted permutation |
| `ReportsScreen.BreakdownCorrect` | zeinflow/src/screens/ReportsScreen.js:163-164 | the breakdown is a permutation of the summary, ordered by amount from largest to smallest, equal amounts in summary order, with the same count and amount totals |
| `ReportsScreen.MonthlyBreakdownTotals` | zeinflow/src/screens/ReportsScreen.js:162-191 | the breakdown of a month counts each of its transactions once and adds up to its total |
| `CategoriesScreen.HandleSaveCategory` | zeinflow/src/screens/CategoriesScreen.js:67-88 | rejected with the empty-name alert exactly when the name is only white space; otherwise the store is asked to update the edited category's id, or to add when nothing is edited, with the trimmed name and the form's type, icon and colour |
| `CategoriesScreen.SavedNameTrimmed` | zeinflow/src/screens/CategoriesScreen.js:76-83 | the name the store receives is never empty and neither starts nor ends with white space |
| `CategoriesScreen.SaveCategory` | zeinflow/src/screens/CategoriesScreen.js:67-96 | a rejected name shows the alert and leaves the store alone; an add appends the new category; an update merges the patch into the first category with the edited id, or changes nothing when none has it; the transactions are untouched |
| `CategoriesScreen.DeleteAlert` | zeinflow/src/screens/CategoriesScreen.js:111-116 | no alert exactly when the delete succeeded; the in-use alert exactly for the in-use error; the generic alert for any other error |
| `CategoriesScreen.HandleDeleteCategory` | zeinflow/src/screens/CategoriesScreen.js:107-117 | the in-use alert appears exactly when a transaction uses the category, and then nothing is deleted; otherwise the category goes |
| `CategoriesScreen.RenderCategory` | zeinflow/src/screens/CategoriesScreen.js:124-156 | a row shows its edit and delete buttons exactly when the category is not built in, and is disabled exactly when it is |
| `CategoriesScreen.IsDefault` | zeinflow/src/screens/CategoriesScreen.js:125 | `parseInt(id) <= 12`; `CategoriesScreen.DefaultRule` states which ids it accepts |
| `CategoriesScreen.DefaultRule` | zeinflow/src/screens/CategoriesScreen.js:125 | the twelve seeded categories are built in; an id that is the numeral of n is built in exactly when n <= 12; an id without digits is not |
| `CategoriesScreen.IncomeCategories` | zeinflow/src/screens/CategoriesScreen.js:158 | the income categories in order; stated by `CategoriesScreen.PartitionLists` |
| `CategoriesScreen.ExpenseCategories` | zeinflow/src/screens/CategoriesScreen.js:159 | the expense categories in order; stated by `CategoriesScreen.PartitionLists` |
| `CategoriesScreen.PartitionLists` | zeinflow/src/screens/CategoriesScreen.js:158-159 | each list is the order-preserving subsequence of its type; a category of another type is in neither; when every category is income or expense the two lists together hold each exactly as often |
| `HomeScreen.GetGreeting` | zeinflow/src/screens/HomeScreen.js:67-73 | the greeting is one of the four greetings |
| `HomeScreen.Band` | zeinflow/src/screens/HomeScreen.js:69-72 | every hour falls in one of four bands |
| `HomeScreen.GreetingBands` | zeinflow/src/screens/HomeScreen.js:67-73 | hours 0-11 greet "Selamat Pagi", 12-14 "Selamat Siang", 15-17 "Selamat Sore" and 18-23 "Selamat Malam", each exactly; the greeting is its band's; later hours never get an earlier band |
| `HomeScreen.LoadData` | zeinflow/src/screens/HomeScreen.js:23-34 | the balance is the all-time balance; income and expense are the current month's totals; the recent list is at most five transactions and the prefix of the query's result |
| `DriveSync.Upserted` | ZeinFlow/app/src/main/java/com/zeinflow/cashflow/service/GoogleDriveService.kt:53-61 | the list contains the transaction; a new id is appended at the end; a present id replaces only its first entry, length and every other entry unchanged; entries with other ids are kept |
| `DriveSync.Deleted` | ZeinFlow/app/src/main/java/com/zeinflow/cashflow/service/GoogleDriveService.kt:80 | the result holds exactly the entries with another id, each as often as before, as a subsequence in order |
| `DriveSync.DeletedAbsentAndTwice` | ZeinFlow/app/src/main/java/com/zeinflow/cashflow/service/GoogleDriveService.kt:80 | deleting an absent id leaves the list as it was, and deleting twice is deleting once |
| `DriveSync.DeleteUndoesUpsert` | ZeinFlow/app/src/main/java/com/zeinflow/cashflow/service/GoogleDriveService.kt:56-80 | a delete after a sync of the same id gives what the delete alone gives |
| `DriveSync.UpsertAfterDelete` | ZeinFlow/app/src/main/java/com/zeinflow/cashflow/service/GoogleDriveService.kt:56-80 | a sync after a delete of the same id appends |
| `DriveSync.UpsertIdempotent` | ZeinFlow/app/src/main/java/com/zeinflow/cashflow/service/GoogleDriveService.kt:56-61 | syncing the same transaction twice writes the same list as syncing it once |
| `DriveSync.ReadTransactions` | ZeinFlow/app/src/main/java/com/zeinflow/cashflow/service/GoogleDriveService.kt:176-186 | empty text and a JSON null both read as the empty list, a list reads as itself, and only malformed text fails |
| `DriveSync.FileOrCreated` | ZeinFlow/app/src/main/java/com/zeinflow/cashflow/service/GoogleDriveService.kt:150-174 | an existing file is used as it is; a new one holds "[]", which reads as the empty list |
| `DriveSync.DriveStore.GetOrCreateAppFolder` | ZeinFlow/app/src/main/java/com/zeinflow/cashflow/service/GoogleDriveService.kt:128-148 | afterwards the folder exists and the file is untouched |
| `DriveSync.DriveStore.GetOrCreateTransactionsFile` | ZeinFlow/app/src/main/java/com/zeinflow/cashflow/service/GoogleDriveService.kt:150-174 | afterwards the file exists: the old one, or a new one holding "[]" |
| `DriveSync.DriveStore.WriteTransactionsToFile` | ZeinFlow/app/src/main/java/com/zeinflow/cashflow/service/GoogleDriveService.kt:188-193 | the file then holds exactly the written list |
| `DriveSync.DriveStore.SyncTransactionToDrive` | ZeinFlow/app/src/main/java/com/zeinflow/cashflow/service/GoogleDriveService.kt:44-69 | an unreachable Drive fails and changes nothing; unreadable content fails after the folder and file exist; otherwise the file holds the upserted list |
| `DriveSync.DriveStore.DeleteTransactionFromDrive` | ZeinFlow/app/src/main/java/com/zeinflow/cashflow/service/GoogleDriveService.kt:71-88 | an unreachable Drive fails and changes nothing; unreadable content fails; otherwise the file holds the list without that id |
| `DriveSync.DriveStore.GetTransactionsFromDrive` | ZeinFlow/app/src/main/java/com/zeinflow/cashflow/service/GoogleDriveService.kt:90-102 | the stored list, or the empty list on any failure |
| `DriveSync.SyncThenRead` | ZeinFlow/app/src/main/java/com/zeinflow/cashflow/service/GoogleDriveService.kt:44-102 | after a successful sync the next read holds the transaction and, for every other id, what was there before |
| `CategoryRepository.DefaultCategoriesShape` | ZeinFlow/app/src/main/java/com/zeinflow/cashflow/data/repository/CategoryRepository.kt:37-53 | twelve seeds: four INCOME then eight EXPENSE, all default, all asking for a generated id; the i-th carries the clock readings 2i and 2i+1 that its own constructor call takes for the two `Date()` defaults |
| `CategoryRepository.OtherTwice` | ZeinFlow/app/src/main/java/com/zeinflow/cashflow/data/repository/CategoryRepository.kt:42-52 | "Lainnya" is seeded exactly twice: last of the income seeds and last of the expense seeds |
| `CategoryRepository.Numbered` | ZeinFlow/app/src/main/java/com/zeinflow/cashflow/data/repository/CategoryRepository.kt:55-57 | inserting in order after id `last` gives the i-th category id last + 1 + i |
| `CategoryRepository.CategoryTable.InsertCategory` | ZeinFlow/app/src/main/java/com/zeinflow/cashflow/data/dao/CategoryDao.kt:23-24 | id 0 is replaced by the next id and the row appended; an id already present violates the primary key and changes nothing; the table keeps ids unique and below the counter |
| `CategoryRepository.CategoryTable.InsertEach` | ZeinFlow/app/src/main/java/com/zeinflow/cashflow/data/repository/CategoryRepository.kt:55-57 | inserting one at a time in list order appends the list with consecutive fresh ids |
| `CategoryRepository.CategoryTable.CreateDefaultCategories` | ZeinFlow/app/src/main/java/com/zeinflow/cashflow/data/repository/CategoryRepository.kt:36-58 | the twelve seeds are appended in order with consecutive fresh ids |
| `CategoryRepository.CategoryTable.CreateDefaultCategoriesIfNeeded` | ZeinFlow/app/src/main/java/com/zeinflow/cashflow/data/repository/CategoryRepository.kt:29-34 | a table with rows is left unchanged; an empty table receives exactly the twelve seeds with consecutive fresh ids and the counter moves by twelve, or, when the counter runs out, the seeds that still fit and a full-database error |
| `CategoryRepository.SeededTable` | ZeinFlow/app/src/main/java/com/zeinflow/cashflow/data/repository/CategoryRepository.kt:36-58 | a seeded table has twelve default rows with distinct consecutive ids, four of them income |
| `CategoryRepository.StartTwice` | ZeinFlow/app/src/main/java/com/zeinflow/cashflow/data/repository/CategoryRepository.kt:29-34 | two calls on a fresh table seed only once |
| `CategoryRepository.Seed` | ZeinFlow/app/src/main/java/com/zeinflow/cashflow/data/repository/CategoryRepository.kt:39-52 | one `Category(…, isDefault = true)` call: id 0 and one fresh clock reading for each of createdAt and updatedAt; stated by `CategoryRepository.DefaultCategoriesShape` |
| `CategoryRepository.DefaultCategories` | ZeinFlow/app/src/main/java/com/zeinflow/cashflow/data/repository/CategoryRepository.kt:37-53 | the twelve seeds in source order; stated by `CategoryRepository.DefaultCategoriesShape` and `CategoryRepository.OtherTwice` |
| `Converters.FromTimestamp` | ZeinFlow/app/src/main/java/com/zeinflow/cashflow/utils/Converters.kt:11-13 | a date exactly when a timestamp is given |
| `Converters.DateToTimestamp` | ZeinFlow/app/src/main/java/com/zeinflow/cashflow/utils/Converters.kt:16-18 | a timestamp exactly when a date is given |
| `Converters.FromTransactionType` | ZeinFlow/app/src/main/java/com/zeinflow/cashflow/utils/Converters.kt:21-23 | the constant's name; `Converters.EnumRoundTrips` proves `valueOf` reads it back and distinct constants get distinct names |
| `Converters.FromSyncStatus` | ZeinFlow/app/src/main/java/com/zeinflow/cashflow/utils/Converters.kt:31-33 | the constant's name; `Converters.EnumRoundTrips` proves `valueOf` reads it back and distinct constants get distinct names |
| `Converters.TimestampRoundTrip` | ZeinFlow/app/src/main/java/com/zeinflow/cashflow/utils/Converters.kt:11-18 | the two timestamp converters are inverse to each other in both directions, null included |
| `Converters.ToTransactionType` | ZeinFlow/app/src/main/java/com/zeinflow/cashflow/utils/Converters.kt:26-28 | succeeds exactly on the names "INCOME" and "EXPENSE", giving the constant of that name; any other text fails with the "No enum constant" message |
| `Converters.ToSyncStatus` | ZeinFlow/app/src/main/java/com/zeinflow/cashflow/utils/Converters.kt:36-38 | succeeds exactly on "SYNCED", "PENDING" and "ERROR", giving the constant of that name; any other text fails with the "No enum constant" message |
| `Converters.EnumRoundTrips` | ZeinFlow/app/src/main/java/com/zeinflow/cashflow/utils/Converters.kt:21-38 | every constant survives a trip through its name, and distinct constants have distinct names |
| `Converters.LowerCaseNamesFail` | ZeinFlow/app/src/main/java/com/zeinflow/cashflow/utils/Converters.kt:26-38 | names are case-sensitive: "income" and "synced" fail |
| `DateUtils.JCalendar.constructor` | ZeinFlow/app/src/main/java/com/zeinflow/cashflow/utils/DateUtils.kt:35 | a calendar holding the clock's moment |
| `DateUtils.JCalendar.SetTime` | ZeinFlow/app/src/main/java/com/zeinflow/cashflow/utils/DateUtils.kt:36 | the calendar then holds the given moment |
| `DateUtils.JCalendar.Set` | ZeinFlow/app/src/main/java/com/zeinflow/cashflow/utils/DateUtils.kt:37-41 | only the named field changes, to the given value |
| `DateUtils.JCalendar.ActualMaximumDayOfMonth` | ZeinFlow/app/src/main/java/com/zeinflow/cashflow/utils/DateUtils.kt:48 | the last day that exists in the month: 28 to 31, and one more is not a day of the month |
| `DateUtils.GetStartOfMonth` | ZeinFlow/app/src/main/java/com/zeinflow/cashflow/utils/DateUtils.kt:34-43 | day 1 at 00:00:00.000 of the same year and month; no moment of that month is earlier |
| `DateUtils.GetEndOfMonth` | ZeinFlow/app/src/main/java/com/zeinflow/cashflow/utils/DateUtils.kt:45-54 | the month's actual last day (with leap-year February) at 23:59:59.999; no moment of that month is later |
| `DateUtils.GetStartOfYear` | ZeinFlow/app/src/main/java/com/zeinflow/cashflow/utils/DateUtils.kt:56-66 | January 1st 00:00:00.000 of the same year; no moment of that year is earlier |
| `DateUtils.GetEndOfYear` | ZeinFlow/app/src/main/java/com/zeinflow/cashflow/utils/DateUtils.kt:68-78 | December 31st 23:59:59.999 of the same year; no moment of that year is later |
| `DateUtils.GetStartOfDay` | ZeinFlow/app/src/main/java/com/zeinflow/cashflow/utils/DateUtils.kt:80-88 | the same calendar day at 00:00:00.000, with only the time fields reset; no moment of the day is earlier; a moment already at midnight is kept, so applying it twice is applying it once |
| `DateUtils.GetEndOfDay` | ZeinFlow/app/src/main/java/com/zeinflow/cashflow/utils/DateUtils.kt:90-98 | the same calendar day at 23:59:59.999, with only the time fields reset; no moment of the day is later; a moment already there is kept |
| `DateUtils.IsToday` | ZeinFlow/app/src/main/java/com/zeinflow/cashflow/utils/DateUtils.kt:114-121 | true exactly when the moment is on the same calendar day as now (same year and day of the year); today implies this month |
| `DateUtils.IsThisMonth` | ZeinFlow/app/src/main/java/com/zeinflow/cashflow/utils/DateUtils.kt:123-130 | true exactly when the moment has now's year and month |
| `DateUtils.MonthBoundsOrdinal` | ZeinFlow/app/src/main/java/com/zeinflow/cashflow/utils/DateUtils.kt:34-54 | start of month <= moment <= end of month on the time line |
| `Calendar.DaysInMonth` | ZeinFlow/app/src/main/java/com/zeinflow/cashflow/utils/DateUtils.kt:48 | 31 days for January, March, May, July, August, October and December; 30 for April, June, September and November; February has 29 exactly in leap years |
| `Calendar.OrdinalOrder` | zeinflow/src/services/DataService.js:165-173 | comparing ordinals of valid dates is comparing them field by field, and equal ordinals mean equal dates |
| `Calendar.DayOfYearInjective` | ZeinFlow/app/src/main/java/com/zeinflow/cashflow/utils/DateUtils.kt:119-120 | within one year the day of the year identifies month and day |
| `Calendar.MonthOf` | zeinflow/src/services/DataService.js:251-252 | a month index outside 0..11 rolls into an earlier or later year and keeps the same position on the line of months |
| `CurrencyUtils.CleanCurrency` | ZeinFlow/app/src/main/java/com/zeinflow/cashflow/utils/CurrencyUtils.kt:24-28 | the cleaned text holds no "." and no ",", and neither begins nor ends with white space |
| `CurrencyUtils.ToDouble` | ZeinFlow/app/src/main/java/com/zeinflow/cashflow/utils/CurrencyUtils.kt:29 | on the modelled texts, fails exactly when the text holds no number; a trimmed plain, "-"-signed or "+"-signed digit string reads as its signed value |
| `CurrencyUtils.ToDoubleOrZero` | ZeinFlow/app/src/main/java/com/zeinflow/cashflow/utils/CurrencyUtils.kt:23-32 | a trimmed plain, "-"-signed or "+"-signed digit string reads as its signed value; text with no number reads as 0 |
| `CurrencyUtils.ParseCurrency` | ZeinFlow/app/src/main/java/com/zeinflow/cashflow/utils/CurrencyUtils.kt:22-33 | cleaned text that, once trimmed of every character up to a space as `toDouble` does, is a plain, "-"-signed or "+"-signed digit string parses to its signed value ("Rp -5.000" to -5000); cleaned text with no number parses to 0 |
| `CurrencyUtils.ParseDigits` | ZeinFlow/app/src/main/java/com/zeinflow/cashflow/utils/CurrencyUtils.kt:22-33 | text that cleans to plain digits, none included, parses to their value |
| `CurrencyUtils.StripSymbol` | ZeinFlow/app/src/main/java/com/zeinflow/cashflow/utils/CurrencyUtils.kt:25 | deleting "Rp" from a prefixed amount leaves only the space after the symbol and the number |
| `CurrencyUtils.StripSeparators` | ZeinFlow/app/src/main/java/com/zeinflow/cashflow/utils/CurrencyUtils.kt:26-27 | deleting "." and "," from digits with separators keeps exactly the digits, in order |
| `CurrencyUtils.CleanSeparated` | ZeinFlow/app/src/main/java/com/zeinflow/cashflow/utils/CurrencyUtils.kt:24-28 | cleaning a prefixed amount leaves exactly its digits, in order |
| `CurrencyUtils.ParseSeparatedAmount` | ZeinFlow/app/src/main/java/com/zeinflow/cashflow/utils/CurrencyUtils.kt:22-33 | an amount with or without the symbol, written with "." and "," separators, parses to the value of its digits |
| `CurrencyUtils.ParseMillionExample` | ZeinFlow/app/src/main/java/com/zeinflow/cashflow/utils/CurrencyUtils.kt:22-33 | "Rp 1.500.000" parses to 1500000 |
| `CurrencyUtils.ParseCommaExample` | ZeinFlow/app/src/main/java/com/zeinflow/cashflow/utils/CurrencyUtils.kt:27 | a comma is deleted, not read as a decimal point: "1.234,56" parses to 123456 |
| `CurrencyUtils.ParseEmptyExample` | ZeinFlow/app/src/main/java/com/zeinflow/cashflow/utils/CurrencyUtils.kt:29-32 | the empty text and the bare symbol parse to 0 |
| `CurrencyUtils.FormatCurrencyWithoutSymbol` | ZeinFlow/app/src/main/java/com/zeinflow/cashflow/utils/CurrencyUtils.kt:17-20 | the result neither begins nor ends with white space |
| `CurrencyUtils.WithoutSymbolOfFormatted` | ZeinFlow/app/src/main/java/com/zeinflow/cashflow/utils/CurrencyUtils.kt:17-20 | stripping the symbol from "Rp", an optional space and a separated number leaves exactly the number |
| `CurrencyUtils.ParseIgnoresSymbol` | ZeinFlow/app/src/main/java/com/zeinflow/cashflow/utils/CurrencyUtils.kt:17-33 | parsing an amount with or without its symbol gives the same value |
| `Text.ToLower` | zeinflow/src/screens/TransactionScreen.js:57-62 | lower-casing keeps the length and lower-cases each character on its own |
| `Text.ToLowerIdempotent` | zeinflow/src/screens/TransactionScreen.js:57-62 | lower-casing twice is lower-casing once |
| `Text.ToLowerNumeral` | zeinflow/src/screens/TransactionScreen.js:63 | a numeral is unchanged by lower-casing |
| `Text.IntToString` | zeinflow/src/screens/TransactionScreen.js:63 | the decimal numeral of an integer reads back as its value, with a minus sign for negatives |
| `Text.Trim` | zeinflow/src/screens/CategoriesScreen.js:68 | the trimmed text neither begins nor ends with white space, and is empty exactly when the text is all white space |
| `Text.JsTrim` | zeinflow/src/screens/CategoriesScreen.js:68 | `String.prototype.trim`: `Text.Trim` with the JavaScript white-space set |
| `Text.KotlinTrim` | ZeinFlow/app/src/main/java/com/zeinflow/cashflow/utils/CurrencyUtils.kt:28 | Kotlin's `trim()`: `Text.Trim` with the Kotlin white-space set |
| `Text.DeleteAll` | ZeinFlow/app/src/main/java/com/zeinflow/cashflow/utils/CurrencyUtils.kt:25 | `replace(pat, "")`: one left-to-right pass deleting each occurrence without rescanning; the result is never longer; used by `CurrencyUtils.CleanCurrency` |
| `Text.DeleteChar` | zeinflow/src/screens/AddTransactionScreen.js:26 | the character no longer occurs, and a text without it is unchanged |
| `Text.ParseIntOfDigits` | zeinflow/src/screens/CategoriesScreen.js:125 | `parseInt` of a digit string is its value |
| `Text.JsParseInt` | zeinflow/src/screens/CategoriesScreen.js:125 | `parseInt`: the leading-digit value after white space and a sign, or NaN; stated by `Text.ParseIntOfDigits`, `Text.ParseIntOfNumeral` and `Text.ParseIntNoDigits` |
| `Text.ParseIntOfNumeral` | zeinflow/src/screens/CategoriesScreen.js:125 | `parseInt` reads back every numeral `toString` writes |
| `Text.ParseIntNoDigits` | zeinflow/src/screens/CategoriesScreen.js:125 | text without any digit is NaN for `parseInt` |

## Left out

- Persistence. Reading and writing AsyncStorage and Google Drive in `DataService` (`loadFromLocalStorage`, `saveToGoogleDrive`, `saveToLocalStorage`, `saveData`, `saveCategories`) is not modelled: every mutation's save is a no-op in the model.
- `Finance.DataService.Initialize`: the stored lists are parameters (`None` when nothing is stored). Not modelled: which backend is read (Drive with a token, else AsyncStorage), `transactionsData.transactions || []`, and the error path, which leaves the store uninitialised.
- Network and SDK calls. OAuth, the REST calls and the race between two find-or-create calls in `service/GoogleDriveService.kt` are not modelled. A Drive that fails is one `reachable` flag (every first request throws). `backupTransactionsToDrive` is not modelled. Gson is abstracted as the `FileContent` cases.
- Fresh ids and clocks. `Date.now()` ids, `new Date()`, `Date()` and `Calendar.getInstance()` are parameters. Each reading of the clock is a parameter of its own: the two `new Date()` calls of `addTransaction` and `addCategory`, and the two `Date()` defaults of each seeded Kotlin category. Nothing is claimed about how readings relate, so the model does not promise that createdAt equals updatedAt. Id uniqueness is not claimed: two adds in one millisecond collide in the app.
- Dates. Dates are local wall-clock records: time zones, daylight-saving gaps, ISO string round trips and the limits of JavaScript's `Date` are not modelled. The Julian calendar before 1582, which `java.util.Calendar` uses, is not modelled either; the model is proleptic Gregorian.
- The month window of `getMonthlyStatistics` ends at 00:00 on the last day, as the code computes it. The model keeps that bound as written and proves its effect (`Finance.LastDayAfterMidnightExcluded`).
- Amounts are whole rupiah as integers. JavaScript numbers, Kotlin `Double` and the precision of `parseFloat` are not modelled.
- `AddTransactionScreen.HandleSave`: requires a field that is digits once its dots are deleted. The screen only ever stores `formatCurrency` output, and `AddTransactionScreen.FormattedAmountIsClean` proves that output meets the requirement. `parseFloat` of other text is not modelled.
- `CurrencyUtils.ParseCurrency`: defined only for cleaned text that is a signed integer numeral or holds no number at all. Not modelled: what `toDouble` makes of decimals, exponents, hexadecimal, "NaN", "Infinity" and type suffixes.
- `CurrencyUtils.ToDouble`: the same limit as `ParseCurrency`: only the inputs described there.
- `CurrencyUtils.ToDoubleOrZero`: the same limit as `ParseCurrency`: only the inputs described there.
- `CurrencyUtils.FormatCurrencyWithoutSymbol`: takes the output of `formatCurrency` as its argument. `NumberFormat.getCurrencyInstance` for Indonesia, `formatCurrency` and `formatAmount` are not modelled. The same holds for every `Intl.NumberFormat`, `SimpleDateFormat` and moment format in the screens, including date labels and the `DateUtils` format functions.
- `DateUtils.addDays` and `DateUtils.addMonths` are not modelled (no caller in the modelled core).
- `DateUtils.JCalendar.Set`: requires a value that keeps every field in range. Lenient roll-over is not modelled, since every helper sets in-range values.
- `Text.ToLower`: models `toLowerCase` for ASCII letters only and leaves every other character alone, whereas JavaScript also lower-cases other scripts.
- String built-ins. Kotlin's and JavaScript's `trim` use their own white-space sets, and each is modelled with its own.
- `Object.values` on the category summary is modelled by the key order of ordinary objects: array-index keys first in numeric order, then the rest in insertion order. Keys inherited from `Object.prototype` are not modelled.
- Types. The app has two `TransactionType` enums, one in `data.model` and one in `data.entities`; they are modelled as one.
- `CategoryRepository` reads the `data.model` Category, while the DAO declares `data.entities`. The model uses the repository's record. DAO queries other than the insert are not modelled.
- `CategoryRepository.CategoryTable.InsertCategory`: read from the `@Insert` contract of Room and SQLite. Failures other than a duplicate key and an exhausted id counter are not modelled.
- UI. Rendering and styles, React state timing, percentages and chart heights in the reports screen, navigation, and the Android activities and fragments are not modelled.
- `HomeScreen.LoadData`: takes an initialised store. The `initialize` call and the error handling around it are not modelled.
