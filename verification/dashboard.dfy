/**
 The dashboard page's routing and its two overview widgets. The current tab is
 read off the location path; the sidebar's four entries navigate to paths that
 select their own tab. The overview shows the first four listed expenses and the
 first four category rows.
 */
module DashboardPage {
  import opened Seqs
  import opened Schema
  import opened Storage
  import opened StorageAnalytics

  const DashboardTab := "dashboard"
  const ExpensesTab := "expenses"
  const CategoriesTab := "categories"
  const AnalyticsTab := "analytics"

  /** `getCurrentTab`: the tab a location path selects; "/" and any unknown path select the dashboard. */
  function GetCurrentTab(location: string): (r: string)
    ensures r in {DashboardTab, ExpensesTab, CategoriesTab, AnalyticsTab}
    ensures r == ExpensesTab <==> location == "/expenses"
    ensures r == CategoriesTab <==> location == "/categories"
    ensures r == AnalyticsTab <==> location == "/analytics"
  {
    if location == "/" || location == "/dashboard" then DashboardTab
    else if location == "/expenses" then ExpensesTab
    else if location == "/categories" then CategoriesTab
    else if location == "/analytics" then AnalyticsTab
    else DashboardTab
  }

  /** One sidebar entry: the tab it stands for, its caption (`label`), and the path it navigates to. */
  datatype NavItem = NavItem(id: string, caption: string, path: string)

  const NavItems: seq<NavItem> := [
    NavItem(DashboardTab, "Dashboard", "/dashboard"),
    NavItem(ExpensesTab, "Expenses", "/expenses"),
    NavItem(CategoriesTab, "Categories", "/categories"),
    NavItem(AnalyticsTab, "Analytics", "/analytics")
  ]

  /** Clicking a sidebar entry lands on the tab that entry stands for. */
  lemma NavigationRoundTrip()
    ensures forall i :: 0 <= i < |NavItems| ==> GetCurrentTab(NavItems[i].path) == NavItems[i].id
  {
  }

  /** Whatever the location, the selected tab is one the sidebar has an entry for. */
  lemma EveryTabHasAnEntry(location: string)
    ensures exists i :: 0 <= i < |NavItems| && NavItems[i].id == GetCurrentTab(location)
  {
    var t := GetCurrentTab(location);
    if t == DashboardTab {
      assert NavItems[0].id == t;
    } else if t == ExpensesTab {
      assert NavItems[1].id == t;
    } else if t == CategoriesTab {
      assert NavItems[2].id == t;
    } else {
      assert NavItems[3].id == t;
    }
  }

  const OverviewRows := 4

  /** The overview's `expenses.slice(0, 4)` and `categoryStats.slice(0, 4)`. */
  function Overview(expenses: seq<ExpenseWithCategory>, stats: seq<CategoryStat>)
    : (r: (seq<ExpenseWithCategory>, seq<CategoryStat>))
    ensures |r.0| == if |expenses| < OverviewRows then |expenses| else OverviewRows
    ensures |r.1| == if |stats| < OverviewRows then |stats| else OverviewRows
    ensures forall i :: 0 <= i < |r.0| ==> r.0[i] == expenses[i]
    ensures forall i :: 0 <= i < |r.1| ==> r.1[i] == stats[i]
  {
    (Take(expenses, OverviewRows), Take(stats, OverviewRows))
  }

  /**
   Fed from the store, the overview's expenses are the most recent ones: no expense
   left out is newer than any expense shown.
   */
  lemma RecentAreNewest(s: Store, stats: seq<CategoryStat>)
    ensures var all := GetExpenses(s);
      var recent := Overview(all, stats).0;
      forall i, j :: 0 <= i < |recent| <= j < |all| ==> all[j].expense.date <= recent[i].expense.date
  {
    var all := GetExpenses(s);
    var recent := Overview(all, stats).0;
    forall i, j | 0 <= i < |recent| <= j < |all|
      ensures all[j].expense.date <= recent[i].expense.date
    {
      assert recent[i] == all[i];
      assert DateOf(all[i]) >= DateOf(all[j]);
    }
  }

  /**
   Fed from the store, the overview's category rows are the largest: no category
   left out has a larger total than any shown.
   */
  lemma BreakdownAreLargest(s: Store, expenses: seq<ExpenseWithCategory>)
    ensures var all := GetExpensesByCategory(s);
      var top := Overview(expenses, all).1;
      forall i, j :: 0 <= i < |top| <= j < |all| ==> all[j].total <= top[i].total
  {
    var all := GetExpensesByCategory(s);
    var top := Overview(expenses, all).1;
    forall i, j | 0 <= i < |top| <= j < |all|
      ensures all[j].total <= top[i].total
    {
      assert top[i] == all[i];
      assert StatTotal(all[i]) >= StatTotal(all[j]);
    }
  }
}
