# ExpenseTracker core, modelled in Dafny

This project models the core of ExpenseTracker, a personal expense tracker with an
Express server and a React client. The model covers:

- The server's in-memory store (`MemStorage`). It keeps categories and expenses in
  two insertion-ordered maps, with an id counter for each. It seeds seven default
  categories. It creates, reads, updates and deletes expenses. It joins every
  expense it returns with its category, and it silently drops expenses whose
  category does not resolve. It answers two analytics queries: expenses in a date
  range, and totals and counts per category, largest total first.
- The HTTP routes, reduced to what they decide: the status code (201, 400, 404,
  204, 500), the body, and the store they leave behind. The summary route computes
  the today, week and month totals and the daily average.
- The client's arithmetic and list handling:
  - the expense table's search, category filter and four sorts;
  - the filter card's periods, total, daily average, highest expense and "most
    active category";
  - the analytics dashboard's weekly trend, top five expenses of the month, seven
    daily buckets and their bar scale, category shares, and budget bars;
  - the category icon and colour lookups;
  - the dashboard page's tab routing, the sidebar entries that lead to each tab,
    and the two four-row overview lists.

Conventions:

- The store is an immutable value, and every operation is a pure function from the
  old store to the new store and its answer.
- A JavaScript `Map` is an association list in insertion order, because the order
  of `Map.values()` decides the order of equal keys under a stable sort.
- `Array.prototype.sort` with a numeric comparator is a stable insertion sort by
  key.
- Amounts are whole cents (`int`). Dates are millisecond timestamps (`int`).
  Percentages and averages are `real`.
- The calendar readings the code takes from `new Date()` are parameters. `Clock`
  holds now, today's midnight, the weekday, the month's first midnight and the day
  of the month. A local-day-number function `dayOf` stands for `toDateString`.

Modules: `Outcomes`, `Seqs`, `Sorting` and `OrderedMap` are the generic pieces.
`Schema` holds the records. `Storage` and `StorageAnalytics` model
`server/storage.ts`, and `Routes` models `server/routes.ts`. The client components
are `Text` with `ExpenseTable`, `ExpenseFilters`, `AnalyticsDashboard`,
`CategoryStyle` and `DashboardPage`.

## Model

| member | source | states |
|---|---|---|
| Sorting.SortDesc | server/storage.ts:81 | the sort used for `getExpenses`, `getExpensesByCategory` and the client's sorts is a permutation of its input (same multiset) |
| Sorting.SortDescNonIncreasing | server/storage.ts:81 | sorting with the comparator `key(b) - key(a)` leaves the keys in non-increasing order |
| Sorting.SortAscNonDecreasing | client/src/components/expenses/expense-table.tsx:71-76 | the comparator `key(a) - key(b)` leaves the keys in non-decreasing order |
| Sorting.SortDescConstantKey | client/src/components/expenses/expense-table.tsx:77-78 | a comparator that always answers 0 leaves a stable sort's input unchanged |
| Sorting.SortDescSumBy | server/storage.ts:154 | sorting changes no total: any per-element sum is the same before and after |
| Sorting.SortDescDistinctBy | server/storage.ts:154 | sorting keeps rows with distinct ids distinct |
| OrderedMap.Get | server/storage.ts:60 | `Map.get` finds a value exactly when the key is present |
| OrderedMap.GetSet | server/storage.ts:66 | after `map.set(k, v)`, `map.get(k)` answers `v` |
| OrderedMap.Set | server/storage.ts:115 | `map.set` replaces a present key in place (same key order) and appends an absent one; no other key's lookup changes |
| OrderedMap.Delete | server/storage.ts:124 | `map.delete` reports whether the key was present; afterwards it is absent and no other key's lookup changes |
| OrderedMap.Values | server/storage.ts:56 | `Array.from(map.values())` lists the values in insertion order |
| Storage.Init | server/storage.ts:27-53 | a new store holds the seven default categories under ids 1 to 7, in order, with the category counter at 8 and no expenses |
| Storage.SeedFromEmpty | server/storage.ts:28-53 | seeding the empty store yields a valid store whose `i`-th category carries id `i + 1`, with the counter one past the last and no expenses |
| Storage.SeedCategoriesAppends | server/storage.ts:48-52 | seeding appends one category per input, numbered on from the counter, and touches nothing else |
| Storage.SeedCategoriesKeepsValid | server/storage.ts:48-52 | seeding keeps the store invariant: keys match record ids, keys ascend, keys stay below the counter |
| Storage.GetCategories | server/storage.ts:55-57 | the listing has one category per map entry, in insertion order |
| Storage.GetCategoryById | server/storage.ts:59-61 | a category is found exactly when its id is a key |
| Storage.CategoryByIdAgreesWithList | server/storage.ts:55-61 | on a valid store, lookup by id finds `c` exactly when `c` is listed and has that id |
| Storage.CreateCategory | server/storage.ts:63-68 | the input is stored under the next id, the counter advances by one, and no other id's lookup or the expenses change |
| Storage.CreateCategoryFinds | server/storage.ts:63-68 | the created category is found under the id it was given |
| Storage.CreateCategoryAppends | server/storage.ts:63-68 | on a valid store, the new category is appended to the listing and the store stays valid |
| Storage.Join | server/storage.ts:75-78 | an expense joins with a category exactly when its category id resolves, and the join carries that category |
| Storage.JoinAll | server/storage.ts:71-79 | the join loop keeps exactly the expenses whose category resolves, joined with it |
| Storage.GetExpenses | server/storage.ts:70-82 | `x` is listed exactly when `x.expense` is stored and its category is `x.category`; one row per resolving expense; dates are non-increasing |
| Storage.GetExpenseById | server/storage.ts:84-92 | an answer exists exactly when the id is stored and its category resolves, and it carries the stored record |
| Storage.ExpenseByIdAgreesWithList | server/storage.ts:70-92 | on a valid store, lookup by id answers `x` exactly when `x` is listed and has that id |
| Storage.CreateExpense | server/storage.ts:94-108 | the record is stored and the counter advances before the category is checked; the call fails exactly when the category is missing; success answers the record as found by id |
| Storage.CreateExpenseAppends | server/storage.ts:94-102 | on a valid store, the new record is appended to the expense map and the store stays valid |
| Storage.CreatedExpenseIsListed | server/storage.ts:94-108 | a successful create is visible in `getExpenses` |
| Storage.OrphanCreateIsStoredButHidden | server/storage.ts:102-105 | a create with a missing category throws, yet the orphan is stored, its id is spent, and the listing does not change |
| Storage.IdsAreNeverReused | server/storage.ts:95 | after any delete, the next created id is above every id held before |
| Storage.UpdateExpense | server/storage.ts:110-121 | a missing id changes nothing; otherwise the merged record is stored, no other record changes, and an answer exists exactly when the merged category resolves |
| Storage.UpdateExpenseKeepsValid | server/storage.ts:114-115 | an update keeps the store invariant |
| Storage.DanglingUpdateIsStoredButHidden | server/storage.ts:114-118 | an update to a missing category is stored but answered with nothing, and the expense leaves the listing |
| Storage.DeleteExpense | server/storage.ts:123-125 | the answer is whether the id was stored; afterwards it is absent and nothing else changed |
| Storage.DeleteExpenseKeepsValid | server/storage.ts:123-125 | a delete keeps the store invariant |
| Storage.SecondDeleteFails | server/storage.ts:123-125 | deleting the same id twice answers false the second time and leaves the store as the first delete left it |
| StorageAnalytics.WindowFilter | server/storage.ts:129-132 | filtering a newest-first listing to a date window keeps exactly the expenses inside the window, in order, newest first |
| StorageAnalytics.GetExpensesByDateRange | server/storage.ts:127-133 | exactly the listed expenses with `start <= date <= end`, in listing order, newest first |
| StorageAnalytics.DateRangeSplits | server/storage.ts:127-133 | the total of `[start, end]` is the total of `[start, mid]` plus that of `[mid + 1, end]` |
| StorageAnalytics.WindowSplits | server/storage.ts:129-132 | the same split for the date filter over any list |
| StorageAnalytics.TallyGet | server/storage.ts:137-144 | the per-category tally holds, for each category id, exactly the count and the amount sum of the listed expenses filed under it, and no entry for an unused id |
| StorageAnalytics.TallyDistinct | server/storage.ts:137-144 | the tally has one entry per category id |
| StorageAnalytics.TallySums | server/storage.ts:137-144 | the tally's counts add up to the number of expenses and its totals to their amount sum |
| StorageAnalytics.Resolve | server/storage.ts:146-152 | a row is produced exactly for the tally entries whose category resolves |
| StorageAnalytics.GetExpensesByCategory | server/storage.ts:135-155 | totals are non-increasing, and every row belongs to some tally entry whose category resolves |
| StorageAnalytics.ByCategoryStatsAreExact | server/storage.ts:135-155 | on a valid store, each row's category is stored and its count and total are exactly those of the listed expenses in that category |
| StorageAnalytics.ByCategoryIsDistinct | server/storage.ts:135-155 | on a valid store, no category appears in two rows |
| StorageAnalytics.AddKeepsExpected | server/storage.ts:139-144 | one pass of the tally loop turns the entry expected for the expenses seen so far into the entry expected once the next expense is seen |
| StorageAnalytics.ResolvedStatsAreExact | server/storage.ts:137-152 | every row the second loop emits carries a stored category and exactly the count and amount sum of the expenses tallied under that category's key |
| StorageAnalytics.TalliedCategoryHasStat | server/storage.ts:137-152 | an expense whose category is stored under its own id gets a row for that category |
| StorageAnalytics.ByCategoryIsComplete | server/storage.ts:135-155 | on a valid store, every listed expense's category has a row |
| StorageAnalytics.ByCategorySums | server/storage.ts:135-155 | the rows' counts add up to the number of listed expenses and their totals to the listed amount sum |
| Routes.HandlePostCategory | server/routes.ts:18-30 | schema failure gives 400 with the store unchanged; otherwise 201 with the category under the next id, the store now finding it under that id, every other id's lookup and the expenses untouched |
| Routes.PostedCategoryIsListed | server/routes.ts:18-30 | on a valid store, a 201 body is appended to the category listing and the store stays valid |
| Routes.HandlePostExpense | server/routes.ts:42-54 | schema failure gives 400 with the store unchanged; otherwise the record is always stored, with 201 when the category resolves and 500 when it does not |
| Routes.PostedExpenseIsListed | server/routes.ts:42-54 | a 201 response carries a record the listing now shows |
| Routes.HandlePutExpense | server/routes.ts:56-75 | 400 on schema failure, 404 on a NaN id, and otherwise 200 exactly when the id is stored and the merged category resolves; the merge is stored whenever the id is |
| Routes.PutNotFoundMayStillWrite | server/routes.ts:60-65 | a 404 from PUT can follow a stored write, when the merged category dangles |
| Routes.HandleDeleteExpense | server/routes.ts:77-91 | 204 exactly when an expense was removed, 404 otherwise with the expenses unchanged, never a body; the id is gone afterwards while every other expense, the categories and both counters are unchanged, and a non-numeric id leaves the store as it was |
| Routes.DeleteTwiceIsNotFound | server/routes.ts:77-91 | a second DELETE of the same id is 404 |
| Routes.RatioOrZero | server/routes.ts:124 | the quotient times a positive divisor gives back the dividend; a divisor that is not positive gives 0 |
| Routes.HandleSummary | server/routes.ts:103-124 | the daily average is the month total over the day of the month, or 0 when that day is not positive |
| Routes.LaterTodayCountsOnlyInToday | server/routes.ts:115-117 | an expense dated after now, up to and including midnight tomorrow, counts in today's total but in neither the week's nor the month's |
| Routes.MidnightCountsOnTwoDays | server/routes.ts:115 | an expense dated exactly at midnight counts toward the today window of the day that ends there and of the day that starts there |
| Routes.WeekIsPastDaysPlusToday | server/routes.ts:110-116 | the week total is the days of the week before today plus today up to now; on a Sunday it is today alone |
| Routes.SummaryOfOneExpenseToday | server/routes.ts:103-124 | a single expense dated today, no later than now, is the whole today, week and month total, and the average is its amount over the day of the month |
| Text.Lower | client/src/components/expenses/expense-table.tsx:59-61 | lower-casing keeps the length and maps each ASCII capital to its small letter |
| Text.LowerUpper | client/src/components/expenses/expense-table.tsx:59-61 | upper-casing first does not change what lower-casing gives |
| Text.ContainsIff | client/src/components/expenses/expense-table.tsx:59-61 | `includes` answers true exactly when the needle occurs at some position |
| Text.IntToString | client/src/components/expenses/expense-table.tsx:64 | the printed id is a non-empty string of digits, with a leading minus exactly for negatives |
| Text.IntToStringRoundTrip | client/src/components/expenses/expense-table.tsx:64 | reading the printed id back gives the number |
| Text.IntToStringInjective | client/src/components/expenses/expense-table.tsx:64 | two ids print the same exactly when they are equal |
| ExpenseTable.ApplySort | client/src/components/expenses/expense-table.tsx:67-80 | the sort is a permutation; each named order sorts by date or amount in its direction; an unknown name keeps the order |
| ExpenseTable.FilteredExpenses | client/src/components/expenses/expense-table.tsx:57-80 | every expense that matches the search and the category selection is shown exactly as many times as it occurs in the input, and no other expense is shown; the order follows the sort name |
| ExpenseTable.EverythingShownByDefault | client/src/components/expenses/expense-table.tsx:57-66 | an empty search with "all" selected shows every expense exactly once |
| ExpenseTable.UnknownSortKeepsOrder | client/src/components/expenses/expense-table.tsx:77-78 | an unknown sort name shows the filtered expenses in arrival order |
| ExpenseTable.SearchIgnoresCase | client/src/components/expenses/expense-table.tsx:59-61 | an upper-cased search term gives the same rows in the same order |
| ExpenseTable.SelectingACategory | client/src/components/expenses/expense-table.tsx:62-64 | selecting a category's printed id shows exactly the matching expenses of that category |
| ExpenseFilters.FilterByPeriod | client/src/components/expenses/expense-filters.tsx:29-60 | a subsequence of the input; today is `[today, tomorrow)`, the week and the month run to now inclusive, and any other period is the whole list |
| ExpenseFilters.CalculateTotal | client/src/components/expenses/expense-filters.tsx:62-64 | the total is the sum of the amounts |
| ExpenseFilters.AverageDaily | client/src/components/expenses/expense-filters.tsx:144 | the average times the day of the month is the month's total |
| ExpenseFilters.HighestExpense | client/src/components/expenses/expense-filters.tsx:151-154 | 0 with no expenses; otherwise an amount present in the list and at least every amount |
| ExpenseFilters.MonthAgreesWithSummary | client/src/components/expenses/expense-filters.tsx:50-55 | the card's month total and average equal the summary route's |
| ExpenseFilters.WeekAgreesWithSummary | client/src/components/expenses/expense-filters.tsx:42-48 | the card's week total equals the summary route's |
| ExpenseFilters.TodayDiffersAtMidnight | client/src/components/expenses/expense-filters.tsx:34-40 | the route's today total exceeds the card's by exactly the expenses dated at midnight tomorrow |
| ExpenseFilters.MostActiveAsWritten | client/src/components/expenses/expense-filters.tsx:158-162 | the figure is "N/A" exactly when there are no expenses |
| ExpenseFilters.MostActiveAsWrittenIgnoresData | client/src/components/expenses/expense-filters.tsx:161 | with one expense outside "Food & Dining", the card still names "Food & Dining", a category no expense has |
| ExpenseFilters.MostActiveCategory | client/src/components/expenses/expense-filters.tsx:158-162 | "N/A" with no expenses; otherwise the category of an expense whose category holds the most expenses |
| AnalyticsDashboard.SpendingTrend | client/src/components/analytics/analytics-dashboard.tsx:31-51 | last week is `[now - 14d, now - 7d)` and this week is from `now - 7d`; the change times last week's total is 100 times the difference, or 0 when last week's total is not positive |
| AnalyticsDashboard.TrendSign | client/src/components/analytics/analytics-dashboard.tsx:117-119 | given a positive last-week total: the figure is red exactly when this week outspent last week, the arrow turns down exactly when this week spent less, and it stays up (change >= 0) exactly when this week spent at least as much |
| AnalyticsDashboard.TrendWeeksPartition | client/src/components/analytics/analytics-dashboard.tsx:33-44 | no expense falls in both weeks, an expense is dated from fourteen days ago on exactly when it falls in one of them, and the two weekly totals add up to the total from fourteen days ago on |
| AnalyticsDashboard.TopExpenses | client/src/components/analytics/analytics-dashboard.tsx:56-64 | at most five of this month's expenses, largest first, as many as there are up to five, and all of them when at most five |
| AnalyticsDashboard.TopExpensesDominate | client/src/components/analytics/analytics-dashboard.tsx:56-64 | the month's expenses are the shown ones plus a rest in which nothing exceeds anything shown |
| AnalyticsDashboard.DayBucketIsFilter | client/src/components/analytics/analytics-dashboard.tsx:70-78 | a day's bucket holds the total and count of the expenses on that local day |
| AnalyticsDashboard.Buckets | client/src/components/analytics/analytics-dashboard.tsx:67-79 | bucket `i` is the day `i` days before today |
| AnalyticsDashboard.DailySpending | client/src/components/analytics/analytics-dashboard.tsx:67-80 | seven buckets, oldest first, bucket `j` for the day `6 - j` days back |
| AnalyticsDashboard.SplitOffDay | client/src/components/analytics/analytics-dashboard.tsx:70-73 | the expenses of days `lo..hi` are those of days `lo..hi-1` plus those of day `hi`, with no expense counted twice, in amount and in count |
| AnalyticsDashboard.DaysSum | client/src/components/analytics/analytics-dashboard.tsx:67-80 | buckets for consecutive days add up, in total and in count, to the expenses of the whole day range they cover |
| AnalyticsDashboard.DailySpendingCoversTheWeek | client/src/components/analytics/analytics-dashboard.tsx:67-80 | the seven buckets together hold exactly the expenses of the last seven local days |
| AnalyticsDashboard.MaxDailySpending | client/src/components/analytics/analytics-dashboard.tsx:82 | the scale is at least 1 and every day's total, and it is either 1 or some day's total |
| AnalyticsDashboard.DayBar | client/src/components/analytics/analytics-dashboard.tsx:181 | the bar times the scale is 100 times the day's total |
| AnalyticsDashboard.DayBarsFit | client/src/components/analytics/analytics-dashboard.tsx:180-182 | no day's bar exceeds 100, and a non-negative day's bar is not below 0 |
| AnalyticsDashboard.DistributionShown | client/src/components/analytics/analytics-dashboard.tsx:200 | the first six category rows |
| AnalyticsDashboard.Share | client/src/components/analytics/analytics-dashboard.tsx:204-205 | a row's share times the grand total is 100 times the row's total, or 0 when the grand total is not positive |
| AnalyticsDashboard.SharesSumToHundred | client/src/components/analytics/analytics-dashboard.tsx:204-205 | with a positive grand total, the shares of all rows add up to 100 |
| AnalyticsDashboard.SpentOnFindsFirst | client/src/components/analytics/analytics-dashboard.tsx:302-304 | when row `i` is the first row with the name, the lookup answers that row's total |
| AnalyticsDashboard.SpentOnMissing | client/src/components/analytics/analytics-dashboard.tsx:302-304 | when no row has the name, the lookup answers 0 |
| AnalyticsDashboard.CategoryBudgets | client/src/components/analytics/analytics-dashboard.tsx:301-305 | three lines, Food & Dining 600, Transportation 300 and Entertainment 200 dollars, each spent as found by name |
| AnalyticsDashboard.Percentage | client/src/components/analytics/analytics-dashboard.tsx:306 | the percentage times the budget is 100 times the amount spent |
| AnalyticsDashboard.BarValue | client/src/components/analytics/analytics-dashboard.tsx:318 | the bar is `Math.min(percentage, 100)`: never above 100, and exactly the percentage whenever that is at most 100 |
| AnalyticsDashboard.OverBudgetIff | client/src/components/analytics/analytics-dashboard.tsx:306-320 | a line is over budget exactly when more was spent than budgeted, and below that the bar shows the true percentage |
| AnalyticsDashboard.MonthlyBudgetCard | client/src/components/analytics/analytics-dashboard.tsx:291-294 | the bar times 2000 dollars is 100 times the month total (0 when missing), and remaining plus spent is 2000 dollars |
| AnalyticsDashboard.MonthlyOverspendIff | client/src/components/analytics/analytics-dashboard.tsx:291-294 | the monthly bar passes 100 exactly when the remaining amount is negative |
| CategoryStyle.LookupAsWritten | client/src/lib/utils.ts:49 | the lookup with its fallback yields an inherited prototype member exactly when the key is not an own key and names an `Object.prototype` member |
| CategoryStyle.AsWrittenAgreesOffPrototype | client/src/lib/utils.ts:37-65 | for every other key, the code as written and the own-key lookup agree |
| CategoryStyle.IconLookupLeaksPrototype | client/src/lib/utils.ts:49 | the icon "constructor" yields the inherited constructor, not an icon name |
| CategoryStyle.ColorLookupLeaksPrototype | client/src/lib/utils.ts:64 | the colour "toString" yields the inherited function, not a class list |
| CategoryStyle.GetCategoryIcon | client/src/lib/utils.ts:37-50 | the result is the help icon or an icon from the table, and an unknown icon gets the help icon |
| CategoryStyle.GetCategoryColor | client/src/lib/utils.ts:52-65 | the result is gray's classes or a class list from the table, and an unknown colour gets gray's |
| CategoryStyle.TablesFindEveryRow | client/src/lib/utils.ts:37-65 | every row of both tables is found by its own key |
| CategoryStyle.SeedCategoriesAreStyled | server/storage.ts:38-46 | every seeded category finds its own icon and colour row, so none falls back |
| DashboardPage.GetCurrentTab | client/src/pages/dashboard.tsx:21-27 | the tab is one of the four; expenses, categories and analytics are selected exactly by their paths, and every other path selects the dashboard |
| DashboardPage.NavigationRoundTrip | client/src/components/layout/sidebar.tsx:14-19 | each sidebar entry's path selects that entry's tab |
| DashboardPage.EveryTabHasAnEntry | client/src/components/layout/sidebar.tsx:14-19 | whatever the location, the selected tab has a sidebar entry |
| DashboardPage.Overview | client/src/pages/dashboard.tsx:51-53 | the first four expenses and the first four category rows, or all of them when there are fewer |
| DashboardPage.RecentAreNewest | client/src/pages/dashboard.tsx:51 | fed from the store, no expense left out is newer than one shown |
| DashboardPage.BreakdownAreLargest | client/src/pages/dashboard.tsx:53 | fed from the store, no category left out has a larger total than one shown |

## Left out

- React rendering, hooks, query caching, toasts, modals, form state and the
  authentication screens: they decide nothing the model's contracts talk about.
- `async`/`await` and the Express plumbing (`res.json`, `createServer`): each
  handler is a pure function from the store and the parsed request to the new store
  and the response.
- The GET routes for categories, expenses and category analytics. They pass a
  storage read straight through, so the storage functions model them.
- The 500 branches of the `catch` blocks. The in-memory store never throws except
  in `createExpense`, and that case is modelled.
- Request validation (zod, drizzle-zod). A body either passes its schema or does
  not (`Parsed`/`Invalid`). `parseInt` of a path id is an `Option`, with `None`
  for `NaN`.
- Floating-point money. `parseFloat` on a two-decimal amount is taken as exact
  whole cents, so sums are exact. Rounding of the float sums in the source is not
  modelled.
- Time zones, daylight saving and `Date` arithmetic. Today's midnight, the
  weekday, the first of the month and the day of the month are inputs. Tomorrow is
  today plus 24 hours and the week starts `weekday` whole days before today.
  `toDateString` equality is equality of a given local day number.
- `toLowerCase` and `toUpperCase` on non-ASCII letters. Only 'A'..'Z' and 'a'..'z'
  are mapped.
- Display formatting: `formatCurrency`, `formatDate`, `toFixed(1)`, weekday labels
  and icon components.
- `createdAt` is `new Date()` in the source; here it is a parameter of
  `CreateExpense`.
- Category deletion and category update: the store has neither.
- Routes.HandleSummary: its contract states the daily average only. The three
  totals are characterised by the lemmas next to it: `WeekIsPastDaysPlusToday`,
  `SummaryOfOneExpenseToday`, and the agreement lemmas in `ExpenseFilters`.
- AnalyticsDashboard.DayBucket: its own contract only fixes the day. What it
  holds is stated by `DayBucketIsFilter`.

## Findings

| source | as written | input that shows it | evidently intended | confidence | as-written member | corrected member |
|---|---|---|---|---|---|---|
| client/src/lib/utils.ts:49 | the icon lookup `iconMap[icon]` also finds members inherited from `Object.prototype` | a category whose icon is "constructor" gets the `Object` function, not "help-circle" | an unknown icon falls back to the help icon | not executed | CategoryStyle.IconLookupLeaksPrototype | CategoryStyle.GetCategoryIcon |
| client/src/lib/utils.ts:64 | the colour lookup `colorMap[color]` also finds members inherited from `Object.prototype` | a category whose colour is "toString" gets a function, not gray's class list | an unknown colour falls back to gray | not executed | CategoryStyle.ColorLookupLeaksPrototype | CategoryStyle.GetCategoryColor |
| client/src/components/expenses/expense-filters.tsx:158-162 | "Most Active Category" shows "Food & Dining" whenever there is any expense | one expense filed under "Transportation" | the category with the most expenses | not executed | ExpenseFilters.MostActiveAsWrittenIgnoresData | ExpenseFilters.MostActiveCategory |
