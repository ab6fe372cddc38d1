/**
 The expense filter card: the expense list narrowed to today, this week or this
 month, the total of what is shown, the daily average of the month, the highest
 single expense and the most active category. The calendar readings come in as a
 `Clock`.
 */
module ExpenseFilters {
  import opened Seqs
  import opened Schema
  import opened Storage
  import opened StorageAnalytics
  import opened Calendar
  import opened Routes

  datatype Period = Today | Week | Month | All

  /**
   `getFilteredExpenses`: today is `today <= date < tomorrow` (on whole milliseconds,
   the closed window ending one millisecond before midnight), the week and the month
   run from their first midnight up to now with both ends included, and any other
   period shows everything.
   */
  function FilterByPeriod(expenses: seq<ExpenseWithCategory>, period: Period, c: Clock): (r: seq<ExpenseWithCategory>)
    ensures IsSubsequence(r, expenses)
    ensures period.Today? ==> forall x :: x in r <==> x in expenses && c.today <= x.expense.date < c.Tomorrow()
    ensures period.Week? ==> forall x :: x in r <==> x in expenses && c.WeekStart() <= x.expense.date <= c.now
    ensures period.Month? ==> forall x :: x in r <==> x in expenses && c.monthStart <= x.expense.date <= c.now
    ensures period.All? ==> r == expenses
  {
    var p := match period
      case Today => InWindow(c.today, c.Tomorrow() - 1)
      case Week => InWindow(c.WeekStart(), c.now)
      case Month => InWindow(c.monthStart, c.now)
      case All => (x: ExpenseWithCategory) => true;
    FilterIsSubsequence(expenses, p);
    FilterMembership(expenses, p);
    if period.All? then
      FilterKeepsAll(expenses, p);
      Filter(expenses, p)
    else
      Filter(expenses, p)
  }

  /** `calculateTotal`: the amounts added up left to right, as `reduce` does. */
  method CalculateTotal(expenses: seq<ExpenseWithCategory>) returns (total: int)
    ensures total == SumBy(expenses, AmountOf)
  {
    total := 0;
    for i := 0 to |expenses|
      invariant total == SumBy(expenses[..i], AmountOf)
    {
      assert expenses[..i + 1] == expenses[..i] + [expenses[i]];
      SumByAppend(expenses[..i], [expenses[i]], AmountOf);
      total := total + expenses[i].expense.amount;
    }
    assert expenses[..|expenses|] == expenses;
  }

  /**
   The "Average Daily" figure: this month's total over today's day of the month
   (which `Date.getDate` never reports as 0).
   */
  function AverageDaily(expenses: seq<ExpenseWithCategory>, c: Clock): (r: real)
    requires 1 <= c.dayOfMonth
    ensures r * (c.dayOfMonth as real) == SumBy(FilterByPeriod(expenses, Month, c), AmountOf) as real
  {
    (SumBy(FilterByPeriod(expenses, Month, c), AmountOf) as real) / (c.dayOfMonth as real)
  }

  /** The "Highest Expense" figure: the largest amount, or 0 when there are no expenses. */
  method HighestExpense(expenses: seq<ExpenseWithCategory>) returns (r: int)
    ensures |expenses| == 0 ==> r == 0
    ensures forall i :: 0 <= i < |expenses| ==> expenses[i].expense.amount <= r
    ensures |expenses| > 0 ==> exists i :: 0 <= i < |expenses| && expenses[i].expense.amount == r
  {
    if |expenses| == 0 {
      return 0;
    }
    r := expenses[0].expense.amount;
    ghost var at := 0;
    for i := 1 to |expenses|
      invariant 0 <= at < |expenses| && expenses[at].expense.amount == r
      invariant forall j :: 0 <= j < i ==> expenses[j].expense.amount <= r
    {
      if expenses[i].expense.amount > r {
        r := expenses[i].expense.amount;
        at := i;
      }
    }
  }

  /**
   The card's month is the summary route's month, so their totals and daily averages
   agree. Both are built from the same inclusive window `InWindow(monthStart, now)`,
   so this holds by definition; it records that the two source tests coincide rather
   than checking one against an independent reading.
   */
  lemma MonthAgreesWithSummary(s: Store, c: Clock)
    requires 1 <= c.dayOfMonth
    ensures SumBy(FilterByPeriod(GetExpenses(s), Month, c), AmountOf) == HandleSummary(s, c).monthTotal
    ensures AverageDaily(GetExpenses(s), c) == HandleSummary(s, c).averageDaily
  {
  }

  /**
   The card's week is the summary route's week. As for the month, both use the same
   inclusive window `InWindow(weekStart, now)`, so this records agreement by
   construction, not an independent cross-check.
   */
  lemma WeekAgreesWithSummary(s: Store, c: Clock)
    ensures SumBy(FilterByPeriod(GetExpenses(s), Week, c), AmountOf) == HandleSummary(s, c).weekTotal
  {
  }

  /**
   The card's today and the summary route's today differ by exactly the expenses
   dated at midnight tomorrow: the route includes that instant, the card does not.
   */
  lemma TodayDiffersAtMidnight(s: Store, c: Clock)
    ensures HandleSummary(s, c).todayTotal ==
      SumBy(FilterByPeriod(GetExpenses(s), Today, c), AmountOf)
      + SumBy(GetExpensesByDateRange(s, c.Tomorrow(), c.Tomorrow()), AmountOf)
  {
    var all := GetExpenses(s);
    var t := c.today;
    var m := c.Tomorrow();
    assert HandleSummary(s, c).todayTotal == SumBy(Filter(all, InWindow(t, m)), AmountOf);
    assert GetExpensesByDateRange(s, m, m) == Filter(all, InWindow(m, m));
    TodaySplit(all, c);
  }

  /** Over any list, the inclusive day window is the card's half-open day plus its closing instant. */
  lemma TodaySplit(all: seq<ExpenseWithCategory>, c: Clock)
    ensures SumBy(Filter(all, InWindow(c.today, c.Tomorrow())), AmountOf) ==
      SumBy(FilterByPeriod(all, Today, c), AmountOf) + SumBy(Filter(all, InWindow(c.Tomorrow(), c.Tomorrow())), AmountOf)
  {
    var m := c.Tomorrow();
    assert FilterByPeriod(all, Today, c) == Filter(all, InWindow(c.today, m - 1));
    WindowSplits(all, c.today, m - 1, m);
  }

  const FoodAndDining := "Food & Dining"
  const NotApplicable := "N/A"

  /** The "Most Active Category" figure as written: a fixed name whenever there is any expense. */
  function MostActiveAsWritten(expenses: seq<ExpenseWithCategory>): (r: string)
    ensures r == NotApplicable <==> |expenses| == 0
  {
    if |expenses| > 0 then FoodAndDining else NotApplicable
  }

  /** With a single expense, filed under a category not named "Food & Dining", the card still names that category. */
  lemma MostActiveAsWrittenIgnoresData(x: ExpenseWithCategory)
    requires x.category.name != FoodAndDining
    ensures MostActiveAsWritten([x]) == FoodAndDining
    ensures forall i :: 0 <= i < |[x]| ==> [x][i].category.name != MostActiveAsWritten([x])
  {
  }

  /** How many of the expenses are filed under category id `k`. */
  function CountIn(expenses: seq<ExpenseWithCategory>, k: int): nat
  {
    |Matching(expenses, k)|
  }

  /**
   The "Most Active Category" figure as the label promises: the category of an
   expense whose category holds at least as many expenses as any other, or "N/A"
   when there are none.
   */
  method MostActiveCategory(expenses: seq<ExpenseWithCategory>) returns (r: string)
    ensures |expenses| == 0 ==> r == NotApplicable
    ensures |expenses| > 0 ==>
      exists i :: 0 <= i < |expenses| && r == expenses[i].category.name &&
        forall j :: 0 <= j < |expenses| ==>
          CountIn(expenses, expenses[j].expense.categoryId) <= CountIn(expenses, expenses[i].expense.categoryId)
  {
    if |expenses| == 0 {
      return NotApplicable;
    }
    var best := 0;
    var bestCount := CountIn(expenses, expenses[0].expense.categoryId);
    for i := 1 to |expenses|
      invariant 0 <= best < |expenses| && bestCount == CountIn(expenses, expenses[best].expense.categoryId)
      invariant forall j :: 0 <= j < i ==> CountIn(expenses, expenses[j].expense.categoryId) <= bestCount
    {
      var n := CountIn(expenses, expenses[i].expense.categoryId);
      if n > bestCount {
        best, bestCount := i, n;
      }
    }
    r := expenses[best].category.name;
  }
}
