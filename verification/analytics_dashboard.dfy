/**
 The analytics page's derived figures: the week-over-week trend, the month's top
 five expenses, the last seven days bucketed by calendar day, each category's share
 of all spending, and the budget bars. Amounts are whole cents, so the budgets of
 600, 300, 200 and 2000 dollars are 60 000, 30 000, 20 000 and 200 000 cents.

 The local calendar day of a timestamp (what `toDateString` compares) is the
 parameter `dayOf`, a day number that goes up by one from one local day to the next.
 */
module AnalyticsDashboard {
  import opened Outcomes
  import opened Seqs
  import opened Sorting
  import opened Schema
  import opened StorageAnalytics
  import opened Calendar

  /** Seven days in milliseconds. */
  const WeekMs := 7 * DayMs

  /** `start <= date < end` */
  function Between(start: int, end: int): ExpenseWithCategory -> bool
  {
    (x: ExpenseWithCategory) => start <= x.expense.date < end
  }

  /** `start <= date`, with no upper end. */
  function From(start: int): ExpenseWithCategory -> bool
  {
    (x: ExpenseWithCategory) => start <= x.expense.date
  }

  /** The amount of the expenses passing `p`. */
  function TotalWhere(expenses: seq<ExpenseWithCategory>, p: ExpenseWithCategory -> bool): int
  {
    SumBy(Filter(expenses, p), AmountOf)
  }

  // ----- Spending trend -----

  datatype Trend = Trend(change: real, thisWeekTotal: int, lastWeekTotal: int)

  /**
   `getSpendingTrend`: last week is `[now - 14 days, now - 7 days)`, this week is
   everything from `now - 7 days` on (future-dated expenses included), and the change
   is the percentage by which this week exceeds last week, or 0 when last week's
   total is not positive.
   */
  function SpendingTrend(expenses: seq<ExpenseWithCategory>, now: int): (r: Trend)
    ensures r.lastWeekTotal == TotalWhere(expenses, Between(now - 2 * WeekMs, now - WeekMs))
    ensures r.thisWeekTotal == TotalWhere(expenses, From(now - WeekMs))
    ensures r.lastWeekTotal > 0 ==>
      r.change * (r.lastWeekTotal as real) == ((r.thisWeekTotal - r.lastWeekTotal) as real) * 100.0
    ensures r.lastWeekTotal <= 0 ==> r.change == 0.0
  {
    var last := TotalWhere(expenses, Between(now - 2 * WeekMs, now - WeekMs));
    var current := TotalWhere(expenses, From(now - WeekMs));
    var change := if last > 0 then (((current - last) as real) / (last as real)) * 100.0 else 0.0;
    Trend(change, current, last)
  }

  /**
   The trend line, given a positive last-week total: it is red exactly when this week outspent
   last week (`change > 0`), and its arrow is rotated down exactly when this week spent less
   (`change < 0`); an unchanged total leaves the arrow up and the line green.
  */
  lemma TrendSign(expenses: seq<ExpenseWithCategory>, now: int)
    requires SpendingTrend(expenses, now).lastWeekTotal > 0
    ensures SpendingTrend(expenses, now).change > 0.0 <==>
      SpendingTrend(expenses, now).thisWeekTotal > SpendingTrend(expenses, now).lastWeekTotal
    ensures SpendingTrend(expenses, now).change < 0.0 <==>
      SpendingTrend(expenses, now).thisWeekTotal < SpendingTrend(expenses, now).lastWeekTotal
    ensures SpendingTrend(expenses, now).change >= 0.0 <==>
      SpendingTrend(expenses, now).thisWeekTotal >= SpendingTrend(expenses, now).lastWeekTotal
  {
    var t := SpendingTrend(expenses, now);
    var l := t.lastWeekTotal as real;
    assert t.change * l == ((t.thisWeekTotal - t.lastWeekTotal) as real) * 100.0;
    if t.change > 0.0 {
      assert t.change * l > 0.0;
    } else if t.change < 0.0 {
      assert t.change * l < 0.0;
    } else {
      assert t.change * l == 0.0;
    }
  }

  /** The two weeks never share an expense: together they are everything from fourteen days ago on. */
  lemma TrendWeeksPartition(expenses: seq<ExpenseWithCategory>, now: int)
    ensures forall i :: 0 <= i < |expenses| ==>
      !(Between(now - 2 * WeekMs, now - WeekMs)(expenses[i]) && From(now - WeekMs)(expenses[i]))
    ensures forall i :: 0 <= i < |expenses| ==>
      (From(now - 2 * WeekMs)(expenses[i]) <==>
        Between(now - 2 * WeekMs, now - WeekMs)(expenses[i]) || From(now - WeekMs)(expenses[i]))
    ensures SpendingTrend(expenses, now).lastWeekTotal + SpendingTrend(expenses, now).thisWeekTotal
         == TotalWhere(expenses, From(now - 2 * WeekMs))
  {
    FilterDisjointSum(expenses, Between(now - 2 * WeekMs, now - WeekMs), From(now - WeekMs),
      From(now - 2 * WeekMs), AmountOf);
  }

  // ----- Top expenses this month -----

  const TopCount := 5

  /** `topExpenses`: this month's expenses (no upper end), largest amount first, at most five. */
  function TopExpenses(expenses: seq<ExpenseWithCategory>, monthStart: int): (r: seq<ExpenseWithCategory>)
    ensures |r| <= TopCount
    ensures forall i :: 0 <= i < |r| ==> r[i] in expenses && monthStart <= r[i].expense.date
    ensures NonIncreasing(r, AmountOf)
    ensures |r| == if |Filter(expenses, From(monthStart))| < TopCount then |Filter(expenses, From(monthStart))| else TopCount
    ensures |Filter(expenses, From(monthStart))| <= TopCount ==>
      multiset(r) == multiset(Filter(expenses, From(monthStart)))
  {
    var candidates := Filter(expenses, From(monthStart));
    var sorted := SortDesc(candidates, AmountOf);
    SortDescNonIncreasing(candidates, AmountOf);
    SortDescMembers(candidates, AmountOf);
    var r := Take(sorted, TopCount);
    FilterMembership(expenses, From(monthStart));
    forall i | 0 <= i < |r|
      ensures r[i] in expenses && From(monthStart)(r[i])
    {
      assert r[i] == sorted[i] && sorted[i] in candidates;
    }
    r
  }

  /**
   The five shown are the largest: what the month holds is what is shown plus a rest
   in which nothing is larger than anything shown.
   */
  lemma TopExpensesDominate(expenses: seq<ExpenseWithCategory>, monthStart: int)
    ensures exists rest: seq<ExpenseWithCategory> ::
      && multiset(TopExpenses(expenses, monthStart)) + multiset(rest) == multiset(Filter(expenses, From(monthStart)))
      && forall y, i :: y in rest && 0 <= i < |TopExpenses(expenses, monthStart)| ==>
           AmountOf(y) <= AmountOf(TopExpenses(expenses, monthStart)[i])
  {
    var candidates := Filter(expenses, From(monthStart));
    var sorted := SortDesc(candidates, AmountOf);
    SortDescNonIncreasing(candidates, AmountOf);
    var top := TopExpenses(expenses, monthStart);
    PrefixDominates(sorted, |top|, AmountOf);
    assert top == sorted[..|top|];
    var rest := sorted[|top|..];
    assert multiset(top) + multiset(rest) == multiset(candidates);
  }

  // ----- Daily spending for the last seven days -----

  /** One bar of the daily chart: a local day number, that day's amount, and its expense count. */
  datatype DayTotal = DayTotal(day: int, total: int, count: int)

  function DayTotalOf(d: DayTotal): int { d.total }

  function DayCountOf(d: DayTotal): int { d.count }

  /** The expense falls on local day `d`. */
  function OnDay(dayOf: int -> int, d: int): ExpenseWithCategory -> bool
  {
    (x: ExpenseWithCategory) => dayOf(x.expense.date) == d
  }

  /** The expense falls on a local day from `lo` to `hi`. */
  function OnDays(dayOf: int -> int, lo: int, hi: int): ExpenseWithCategory -> bool
  {
    (x: ExpenseWithCategory) => lo <= dayOf(x.expense.date) <= hi
  }

  function One(x: ExpenseWithCategory): int { 1 }

  /** The bucket of local day `d`: its amount and expense count, one expense at a time. */
  function DayBucket(expenses: seq<ExpenseWithCategory>, dayOf: int -> int, d: int): (r: DayTotal)
    ensures r.day == d
  {
    if |expenses| == 0 then DayTotal(d, 0, 0)
    else
      var rest := DayBucket(expenses[1..], dayOf, d);
      if dayOf(expenses[0].expense.date) == d then DayTotal(d, expenses[0].expense.amount + rest.total, 1 + rest.count)
      else rest
  }

  /** A bucket holds what filtering the list down to its day gives: the same amount and count. */
  lemma {:induction false} DayBucketIsFilter(expenses: seq<ExpenseWithCategory>, dayOf: int -> int, d: int)
    ensures DayBucket(expenses, dayOf, d).total == TotalWhere(expenses, OnDay(dayOf, d))
    ensures DayBucket(expenses, dayOf, d).count == |Filter(expenses, OnDay(dayOf, d))|
  {
    if |expenses| > 0 {
      DayBucketIsFilter(expenses[1..], dayOf, d);
      var p := OnDay(dayOf, d);
      var head := if p(expenses[0]) then [expenses[0]] else [];
      assert Filter(expenses, p) == head + Filter(expenses[1..], p);
      SumByAppend(head, Filter(expenses[1..], p), AmountOf);
    }
  }

  /** `Array.from({ length: n }, (_, i) => bucket of the day i days before today)`. */
  function Buckets(expenses: seq<ExpenseWithCategory>, dayOf: int -> int, today: int, n: nat): (r: seq<DayTotal>)
    ensures |r| == n
    ensures forall i :: 0 <= i < n ==> r[i] == DayBucket(expenses, dayOf, today - i)
  {
    if n == 0 then [] else Buckets(expenses, dayOf, today, n - 1) + [DayBucket(expenses, dayOf, today - (n - 1))]
  }

  /** `dailySpending`: the last seven local days, oldest first: position `j` holds the day `6 - j` days back. */
  function DailySpending(expenses: seq<ExpenseWithCategory>, dayOf: int -> int, now: int): (r: seq<DayTotal>)
    ensures |r| == 7
    ensures forall j :: 0 <= j < 7 ==> r[j] == DayBucket(expenses, dayOf, dayOf(now) - (6 - j))
  {
    Reverse(Buckets(expenses, dayOf, dayOf(now), 7))
  }

  lemma {:induction false} SumByOne(s: seq<ExpenseWithCategory>)
    ensures SumBy(s, One) == |s|
  {
    if |s| > 0 {
      SumByOne(s[1..]);
    }
  }

  /** The days `lo..hi` are the days `lo..hi - 1` plus day `hi`, for the amount and the count alike. */
  lemma SplitOffDay(expenses: seq<ExpenseWithCategory>, dayOf: int -> int, lo: int, hi: int)
    requires lo <= hi
    ensures TotalWhere(expenses, OnDays(dayOf, lo, hi))
         == TotalWhere(expenses, OnDays(dayOf, lo, hi - 1)) + TotalWhere(expenses, OnDay(dayOf, hi))
    ensures |Filter(expenses, OnDays(dayOf, lo, hi))|
         == |Filter(expenses, OnDays(dayOf, lo, hi - 1))| + |Filter(expenses, OnDay(dayOf, hi))|
  {
    var earlier, last, all := OnDays(dayOf, lo, hi - 1), OnDay(dayOf, hi), OnDays(dayOf, lo, hi);
    forall i | 0 <= i < |expenses|
      ensures !(earlier(expenses[i]) && last(expenses[i]))
      ensures all(expenses[i]) == (earlier(expenses[i]) || last(expenses[i]))
    {
      var d := dayOf(expenses[i].expense.date);
      assert earlier(expenses[i]) == (lo <= d <= hi - 1);
      assert last(expenses[i]) == (d == hi);
      assert all(expenses[i]) == (lo <= d <= hi);
    }
    FilterDisjointSum(expenses, earlier, last, all, AmountOf);
    FilterDisjointSum(expenses, earlier, last, all, One);
    SumByOne(Filter(expenses, earlier));
    SumByOne(Filter(expenses, last));
    SumByOne(Filter(expenses, all));
  }

  /**
   Buckets for the days from `hi` back to `lo`, newest first, add up to the amount
   and the number of expenses of those days.
   */
  lemma {:induction false} DaysSum(expenses: seq<ExpenseWithCategory>, dayOf: int -> int, lo: int, hi: int, b: seq<DayTotal>)
    requires lo + |b| == hi + 1
    requires forall i :: 0 <= i < |b| ==> b[i] == DayBucket(expenses, dayOf, hi - i)
    ensures SumBy(b, DayTotalOf) == TotalWhere(expenses, OnDays(dayOf, lo, hi))
    ensures SumBy(b, DayCountOf) == |Filter(expenses, OnDays(dayOf, lo, hi))|
    decreases |b|
  {
    if |b| == 0 {
      FilterDropsAll(expenses, OnDays(dayOf, lo, hi));
    } else {
      var rest := b[1..];
      assert forall i :: 0 <= i < |rest| ==> rest[i] == DayBucket(expenses, dayOf, (hi - 1) - i);
      DaysSum(expenses, dayOf, lo, hi - 1, rest);
      assert b[0] == DayBucket(expenses, dayOf, hi);
      DayBucketIsFilter(expenses, dayOf, hi);
      SplitOffDay(expenses, dayOf, lo, hi);
    }
  }

  /**
   The seven bars together hold exactly the expenses of the last seven local days:
   their totals and counts add up to that week's amount and number of expenses.
   */
  lemma DailySpendingCoversTheWeek(expenses: seq<ExpenseWithCategory>, dayOf: int -> int, now: int)
    ensures SumBy(DailySpending(expenses, dayOf, now), DayTotalOf) == TotalWhere(expenses, OnDays(dayOf, dayOf(now) - 6, dayOf(now)))
    ensures SumBy(DailySpending(expenses, dayOf, now), DayCountOf) == |Filter(expenses, OnDays(dayOf, dayOf(now) - 6, dayOf(now)))|
  {
    var b := Buckets(expenses, dayOf, dayOf(now), 7);
    DaysSum(expenses, dayOf, dayOf(now) - 6, dayOf(now), b);
    SumByReverse(b, DayTotalOf);
    SumByReverse(b, DayCountOf);
  }

  /** `Math.max(...totals, 1)`: the chart's scale, never below 1. */
  function MaxDailySpending(days: seq<DayTotal>): (m: int)
    ensures m >= 1
    ensures forall j :: 0 <= j < |days| ==> days[j].total <= m
    ensures m == 1 || exists j :: 0 <= j < |days| && days[j].total == m
  {
    if |days| == 0 then 1
    else
      var rest := MaxDailySpending(days[1..]);
      assert forall j :: 1 <= j < |days| ==> days[j] == days[1..][j - 1];
      if days[0].total > rest then days[0].total else rest
  }

  /** The height of one bar: `total / maxDailySpending * 100`. */
  function DayBar(day: DayTotal, max: int): (r: real)
    requires max >= 1
    ensures r * (max as real) == (day.total as real) * 100.0
  {
    ((day.total as real) / (max as real)) * 100.0
  }

  /** No bar of the chart runs over the top, and a bar of a day with no negative total is not negative. */
  lemma DayBarsFit(days: seq<DayTotal>, j: int)
    requires 0 <= j < |days|
    ensures DayBar(days[j], MaxDailySpending(days)) <= 100.0
    ensures days[j].total >= 0 ==> DayBar(days[j], MaxDailySpending(days)) >= 0.0
  {
    var m := MaxDailySpending(days);
    QuotientBounds(days[j].total as real, m as real);
  }

  lemma PositiveProduct(a: real, b: real)
    requires a > 0.0 && b > 0.0
    ensures a * b > 0.0
  {
  }

  /** A quotient by a divisor of at least 1 that is no smaller than the dividend is at most 1. */
  lemma QuotientBounds(t: real, m: real)
    requires m >= 1.0 && t <= m
    ensures t / m <= 1.0
    ensures t >= 0.0 ==> t / m >= 0.0
  {
    var q := t / m;
    assert q * m == t;
    if q > 1.0 {
      PositiveProduct(q - 1.0, m);
    }
    if t >= 0.0 && q < 0.0 {
      PositiveProduct(-q, m);
    }
  }

  // ----- Category distribution -----

  const DistributionRows := 6

  /** The rows of the distribution card: the first six category rows. */
  function DistributionShown(stats: seq<CategoryStat>): (r: seq<CategoryStat>)
    ensures |r| == if |stats| < DistributionRows then |stats| else DistributionRows
    ensures forall i :: 0 <= i < |r| ==> r[i] == stats[i]
  {
    Take(stats, DistributionRows)
  }

  /** One category's percentage of ALL category totals, 0 when the grand total is not positive. */
  function Share(stats: seq<CategoryStat>, stat: CategoryStat): (r: real)
    ensures SumBy(stats, StatTotal) > 0 ==> r * (SumBy(stats, StatTotal) as real) == (stat.total as real) * 100.0
    ensures SumBy(stats, StatTotal) <= 0 ==> r == 0.0
  {
    var totalSpent := SumBy(stats, StatTotal);
    if totalSpent > 0 then ((stat.total as real) / (totalSpent as real)) * 100.0 else 0.0
  }

  /** The shares of the rows `part`, added up. */
  function ShareSum(part: seq<CategoryStat>, stats: seq<CategoryStat>): real
  {
    if |part| == 0 then 0.0 else Share(stats, part[0]) + ShareSum(part[1..], stats)
  }

  lemma {:induction false} ShareSumScales(part: seq<CategoryStat>, stats: seq<CategoryStat>)
    requires SumBy(stats, StatTotal) > 0
    ensures ShareSum(part, stats) * (SumBy(stats, StatTotal) as real) == (SumBy(part, StatTotal) as real) * 100.0
  {
    if |part| > 0 {
      ShareSumScales(part[1..], stats);
      var t := SumBy(stats, StatTotal) as real;
      assert ShareSum(part, stats) * t == Share(stats, part[0]) * t + ShareSum(part[1..], stats) * t;
    }
  }

  /** Over all categories the percentages add up to 100 whenever anything was spent. */
  lemma SharesSumToHundred(stats: seq<CategoryStat>)
    requires SumBy(stats, StatTotal) > 0
    ensures ShareSum(stats, stats) == 100.0
  {
    ShareSumScales(stats, stats);
  }

  // ----- Budgets -----

  const FoodBudget := 60_000
  const TransportationBudget := 30_000
  const EntertainmentBudget := 20_000
  const MonthlyBudget := 200_000

  datatype BudgetLine = BudgetLine(name: string, budget: int, spent: int)

  /** `categoryStats.find(s => s.category.name === name)?.total || 0` */
  function SpentOn(stats: seq<CategoryStat>, name: string): int
  {
    if |stats| == 0 then 0
    else if stats[0].category.name == name then stats[0].total
    else SpentOn(stats[1..], name)
  }

  /** The lookup answers the total of the first row with the name. */
  lemma {:induction false} SpentOnFindsFirst(stats: seq<CategoryStat>, name: string, i: int)
    requires 0 <= i < |stats| && stats[i].category.name == name
    requires forall j :: 0 <= j < i ==> stats[j].category.name != name
    ensures SpentOn(stats, name) == stats[i].total
  {
    if i > 0 {
      var tail := stats[1..];
      assert forall j :: 0 <= j < i - 1 ==> tail[j] == stats[j + 1];
      SpentOnFindsFirst(tail, name, i - 1);
    }
  }

  /** The lookup answers 0 when no row has the name. */
  lemma {:induction false} SpentOnMissing(stats: seq<CategoryStat>, name: string)
    requires forall i :: 0 <= i < |stats| ==> stats[i].category.name != name
    ensures SpentOn(stats, name) == 0
  {
    if |stats| > 0 {
      assert forall j :: 0 <= j < |stats| - 1 ==> stats[1..][j] == stats[j + 1];
      SpentOnMissing(stats[1..], name);
    }
  }

  /** The three category budget lines, in display order. */
  function CategoryBudgets(stats: seq<CategoryStat>): (r: seq<BudgetLine>)
    ensures |r| == 3
    ensures r[0].name == "Food & Dining" && r[0].budget == FoodBudget
    ensures r[1].name == "Transportation" && r[1].budget == TransportationBudget
    ensures r[2].name == "Entertainment" && r[2].budget == EntertainmentBudget
    ensures forall i :: 0 <= i < 3 ==> r[i].spent == SpentOn(stats, r[i].name)
  {
    [ BudgetLine("Food & Dining", FoodBudget, SpentOn(stats, "Food & Dining")),
      BudgetLine("Transportation", TransportationBudget, SpentOn(stats, "Transportation")),
      BudgetLine("Entertainment", EntertainmentBudget, SpentOn(stats, "Entertainment")) ]
  }

  /** `spent / budget * 100` */
  function Percentage(spent: int, budget: int): (r: real)
    requires budget > 0
    ensures r * (budget as real) == (spent as real) * 100.0
  {
    ((spent as real) / (budget as real)) * 100.0
  }

  predicate IsOverBudget(line: BudgetLine)
    requires line.budget > 0
  {
    Percentage(line.spent, line.budget) > 100.0
  }

  /** `Math.min(percentage, 100)`: the bar never runs past full. */
  function BarValue(line: BudgetLine): (r: real)
    requires line.budget > 0
    ensures r <= 100.0
    ensures r == Percentage(line.spent, line.budget) || r == 100.0
    ensures Percentage(line.spent, line.budget) <= 100.0 ==> r == Percentage(line.spent, line.budget)
  {
    var p := Percentage(line.spent, line.budget);
    if p < 100.0 then p else 100.0
  }

  /** A line turns red exactly when more was spent than budgeted; only then is its bar cut off. */
  lemma OverBudgetIff(line: BudgetLine)
    requires line.budget > 0
    ensures IsOverBudget(line) <==> line.spent > line.budget
    ensures !IsOverBudget(line) ==> BarValue(line) == Percentage(line.spent, line.budget)
  {
    var b := line.budget as real;
    var p := Percentage(line.spent, line.budget);
    assert p * b == (line.spent as real) * 100.0;
    if p > 100.0 {
      assert p * b > 100.0 * b;
    } else {
      assert p * b <= 100.0 * b;
    }
  }

  /** The monthly budget card: `(monthTotal || 0) / 2000 * 100` and `2000 - (monthTotal || 0)`. */
  function MonthlyBudgetCard(monthTotal: Option<int>): (r: (real, int))
    ensures r.0 * (MonthlyBudget as real) == (monthTotal.GetOr(0) as real) * 100.0
    ensures r.1 + monthTotal.GetOr(0) == MonthlyBudget
  {
    var spent := monthTotal.GetOr(0);
    (Percentage(spent, MonthlyBudget), MonthlyBudget - spent)
  }

  /** The monthly bar passes 100% exactly when the remaining amount goes negative. */
  lemma MonthlyOverspendIff(monthTotal: Option<int>)
    ensures MonthlyBudgetCard(monthTotal).0 > 100.0 <==> MonthlyBudgetCard(monthTotal).1 < 0
  {
    OverBudgetIff(BudgetLine("", MonthlyBudget, monthTotal.GetOr(0)));
  }
}
