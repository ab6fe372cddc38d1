/**
 The store's two analytics reads: the expenses whose date falls in an inclusive
 window, and the per-category totals. Both start from `getExpenses`, so both see
 only expenses whose category resolves, and both keep its most-recent-first order
 until they sort again.
 */
module StorageAnalytics {
  import opened Outcomes
  import opened Seqs
  import opened Sorting
  import opened OrderedMap
  import opened Schema
  import opened Storage

  /** The window test: `start <= date <= end`, both ends included. */
  function InWindow(start: int, end: int): ExpenseWithCategory -> bool
  {
    (x: ExpenseWithCategory) => start <= x.expense.date <= end
  }

  /** `getExpensesByDateRange`: the listing restricted to `start <= date <= end`, both ends included. */
  function GetExpensesByDateRange(s: Store, start: int, end: int): (r: seq<ExpenseWithCategory>)
    ensures forall x :: x in r <==> x in GetExpenses(s) && start <= x.expense.date <= end
    ensures IsSubsequence(r, GetExpenses(s))
    ensures NonIncreasing(r, DateOf)
  {
    var all := GetExpenses(s);
    WindowFilter(all, start, end);
    Filter(all, InWindow(start, end))
  }

  /** The window filter keeps exactly the dated-in-window elements, in order, so a sorted list stays sorted. */
  lemma WindowFilter(all: seq<ExpenseWithCategory>, start: int, end: int)
    requires NonIncreasing(all, DateOf)
    ensures forall x :: x in Filter(all, InWindow(start, end)) <==> x in all && start <= x.expense.date <= end
    ensures IsSubsequence(Filter(all, InWindow(start, end)), all)
    ensures NonIncreasing(Filter(all, InWindow(start, end)), DateOf)
  {
    var p := InWindow(start, end);
    FilterIsSubsequence(all, p);
    FilterNonIncreasing(all, p, DateOf);
    FilterMembership(all, p);
  }

  /**
   Splitting a window at any millisecond splits its amount: `[start, mid]` and
   `[mid + 1, end]` together hold exactly what `[start, end]` holds, and no expense
   is counted twice.
   */
  lemma DateRangeSplits(s: Store, start: int, mid: int, end: int)
    requires start <= mid < end
    ensures SumBy(GetExpensesByDateRange(s, start, mid), AmountOf)
          + SumBy(GetExpensesByDateRange(s, mid + 1, end), AmountOf)
         == SumBy(GetExpensesByDateRange(s, start, end), AmountOf)
  {
    WindowSplits(GetExpenses(s), start, mid, end);
  }

  lemma WindowSplits(all: seq<ExpenseWithCategory>, start: int, mid: int, end: int)
    requires start <= mid < end
    ensures SumBy(Filter(all, InWindow(start, mid)), AmountOf) + SumBy(Filter(all, InWindow(mid + 1, end)), AmountOf)
         == SumBy(Filter(all, InWindow(start, end)), AmountOf)
  {
    FilterDisjointSum(all, InWindow(start, mid), InWindow(mid + 1, end), InWindow(start, end), AmountOf);
  }

  /** The running `{ total, count }` the per-category loop keeps for one category id. */
  datatype Totals = Totals(total: int, count: int)

  function TotalOf(t: Totals): int { t.total }

  function CountOf(t: Totals): int { t.count }

  function StatTotal(x: CategoryStat): int { x.total }

  function StatCount(x: CategoryStat): int { x.count }

  function StatCategoryId(x: CategoryStat): int { x.category.id }

  function InCategory(k: int): ExpenseWithCategory -> bool
  {
    (x: ExpenseWithCategory) => x.expense.categoryId == k
  }

  /** The listed expenses of category `k`, in listing order. */
  function Matching(es: seq<ExpenseWithCategory>, k: int): seq<ExpenseWithCategory>
  {
    Filter(es, InCategory(k))
  }

  /** What the loop should have accumulated for `k`: the amount and the number of its expenses. */
  function Expected(es: seq<ExpenseWithCategory>, k: int): Totals
  {
    Totals(SumBy(Matching(es, k), AmountOf), |Matching(es, k)|)
  }

  /**
   One pass of the per-category loop: the totals so far for the expense's category
   (or zero), plus this expense, written back under the category id.
   */
  function Add(m: OMap<Totals>, x: ExpenseWithCategory): OMap<Totals>
  {
    var k := x.expense.categoryId;
    Set(m, k, Bump(Get(m, k), x.expense.amount))
  }

  /** `(current || { total: 0, count: 0 })` with one more expense of `amount` added. */
  function Bump(current: Option<Totals>, amount: int): Totals
  {
    var t := current.GetOr(Totals(0, 0));
    Totals(t.total + amount, t.count + 1)
  }

  /** The per-category loop over `es`, in order. */
  function Tally(es: seq<ExpenseWithCategory>): OMap<Totals>
    decreases |es|
  {
    if |es| == 0 then [] else Add(Tally(es[..|es| - 1]), es[|es| - 1])
  }

  /** One pass updates the entry of the expense's own category and no other. */
  lemma AddGet(m: OMap<Totals>, x: ExpenseWithCategory, k: int)
    ensures Get(Add(m, x), k) ==
      if x.expense.categoryId == k then Some(Bump(Get(m, k), x.expense.amount)) else Get(m, k)
  {
    var kx := x.expense.categoryId;
    if kx == k {
      GetSet(m, k, Bump(Get(m, k), x.expense.amount));
    }
  }

  /** One pass adds one to the sum of the counts and the expense's amount to the sum of the totals. */
  lemma AddSums(m: OMap<Totals>, x: ExpenseWithCategory)
    ensures SumBy(Values(Add(m, x)), CountOf) == SumBy(Values(m), CountOf) + 1
    ensures SumBy(Values(Add(m, x)), TotalOf) == SumBy(Values(m), TotalOf) + x.expense.amount
  {
    var k := x.expense.categoryId;
    SetSumBy(m, k, Bump(Get(m, k), x.expense.amount), CountOf);
    SetSumBy(m, k, Bump(Get(m, k), x.expense.amount), TotalOf);
  }

  /** The listing of category `k` grows by `x` exactly when `x` belongs to `k`. */
  lemma MatchingSnoc(es: seq<ExpenseWithCategory>, x: ExpenseWithCategory, k: int)
    ensures Matching(es + [x], k) == Matching(es, k) + (if x.expense.categoryId == k then [x] else [])
    ensures SumBy(Matching(es + [x], k), AmountOf) ==
      SumBy(Matching(es, k), AmountOf) + (if x.expense.categoryId == k then x.expense.amount else 0)
  {
    FilterAppend(es, [x], InCategory(k));
    assert Filter([x], InCategory(k)) == if x.expense.categoryId == k then [x] else [];
    SumByAppend(Matching(es, k), if x.expense.categoryId == k then [x] else [], AmountOf);
  }

  /**
   After the loop, a category id has an entry exactly when some expense has that
   category, and its entry holds that category's amount and count.
   */
  lemma {:induction false} TallyGet(es: seq<ExpenseWithCategory>, k: int)
    ensures Get(Tally(es), k) == if |Matching(es, k)| == 0 then None else Some(Expected(es, k))
    decreases |es|
  {
    if |es| > 0 {
      var init := es[..|es| - 1];
      var x := es[|es| - 1];
      assert es == init + [x];
      assert Tally(es) == Add(Tally(init), x);
      TallyGet(init, k);
      AddKeepsExpected(Tally(init), init, x, k);
    }
  }

  /** One pass turns the entry expected for `es` into the entry expected for `es + [x]`. */
  lemma AddKeepsExpected(m: OMap<Totals>, es: seq<ExpenseWithCategory>, x: ExpenseWithCategory, k: int)
    requires Get(m, k) == if |Matching(es, k)| == 0 then None else Some(Expected(es, k))
    ensures Get(Add(m, x), k) == if |Matching(es + [x], k)| == 0 then None else Some(Expected(es + [x], k))
  {
    MatchingSnoc(es, x, k);
    AddGet(m, x, k);
  }

  lemma {:induction false} TallyDistinct(es: seq<ExpenseWithCategory>)
    ensures DistinctKeys(Tally(es))
    decreases |es|
  {
    if |es| > 0 {
      TallyDistinct(es[..|es| - 1]);
      var m := Tally(es[..|es| - 1]);
      var x := es[|es| - 1];
      SetDistinctKeys(m, x.expense.categoryId, Bump(Get(m, x.expense.categoryId), x.expense.amount));
    }
  }

  /** The counts over all entries add up to the number of expenses, the totals to their amount. */
  lemma {:induction false} TallySums(es: seq<ExpenseWithCategory>)
    ensures SumBy(Values(Tally(es)), CountOf) == |es|
    ensures SumBy(Values(Tally(es)), TotalOf) == SumBy(es, AmountOf)
    decreases |es|
  {
    if |es| > 0 {
      var init := es[..|es| - 1];
      var x := es[|es| - 1];
      assert es == init + [x];
      assert Tally(es) == Add(Tally(init), x);
      TallySums(init);
      SumByAppend(init, [x], AmountOf);
      AddSums(Tally(init), x);
    }
  }

  /** The second loop: each entry whose category resolves becomes a stat, in entry order. */
  function Resolve(m: OMap<Totals>, categories: OMap<Category>): (r: seq<CategoryStat>)
    ensures forall x :: x in r <==> exists i :: 0 <= i < |m| && Resolves(m[i], categories, x)
  {
    if |m| == 0 then []
    else
      var rest := Resolve(m[1..], categories);
      assert forall i :: 0 <= i < |m[1..]| ==> m[1..][i] == m[i + 1];
      assert forall i :: 0 < i < |m| ==> m[i] == m[1..][i - 1];
      match Get(categories, m[0].key)
      case Some(c) => [CategoryStat(c, m[0].value.total, m[0].value.count)] + rest
      case None => rest
  }

  /** `x` is the stat the entry `e` yields. */
  ghost predicate Resolves(e: Entry<Totals>, categories: OMap<Category>, x: CategoryStat)
  {
    Get(categories, e.key) == Some(x.category) && x.total == e.value.total && x.count == e.value.count
  }

  /** When every entry's category resolves, nothing is dropped and the sums carry over. */
  lemma {:induction false} ResolveSums(m: OMap<Totals>, categories: OMap<Category>)
    requires forall i :: 0 <= i < |m| ==> HasKey(categories, m[i].key)
    ensures SumBy(Resolve(m, categories), StatCount) == SumBy(Values(m), CountOf)
    ensures SumBy(Resolve(m, categories), StatTotal) == SumBy(Values(m), TotalOf)
  {
    if |m| > 0 {
      assert forall i :: 0 <= i < |m[1..]| ==> m[1..][i] == m[i + 1];
      ResolveSums(m[1..], categories);
      assert Values(m) == [m[0].value] + Values(m[1..]);
      var c := Get(categories, m[0].key).value;
      var r := Resolve(m, categories);
      assert r == [CategoryStat(c, m[0].value.total, m[0].value.count)] + Resolve(m[1..], categories);
      assert r[1..] == Resolve(m[1..], categories);
    }
  }

  /** Under distinct entry keys, the stats carry distinct category ids (given ids match their keys). */
  lemma {:induction false} ResolveDistinct(m: OMap<Totals>, categories: OMap<Category>)
    requires DistinctKeys(m)
    requires forall i :: 0 <= i < |categories| ==> categories[i].value.id == categories[i].key
    ensures DistinctBy(Resolve(m, categories), StatCategoryId)
  {
    if |m| > 0 {
      var rest := Resolve(m[1..], categories);
      ResolveDistinct(m[1..], categories);
      var r := Resolve(m, categories);
      match Get(categories, m[0].key)
      case None =>
      case Some(c) =>
        assert r == [CategoryStat(c, m[0].value.total, m[0].value.count)] + rest;
        forall j | 0 <= j < |rest|
          ensures rest[j].category.id != c.id
        {
          assert rest[j] in rest;
          var i :| 0 <= i < |m[1..]| && Resolves(m[1..][i], categories, rest[j]);
          assert m[1..][i] == m[i + 1];
          IdMatchesKey(categories, m[0].key);
          IdMatchesKey(categories, m[i + 1].key);
        }
        forall a, b | 0 <= a < b < |r|
          ensures StatCategoryId(r[a]) != StatCategoryId(r[b])
        {
          if a == 0 {
            assert r[b] == rest[b - 1];
          } else {
            assert r[a] == rest[a - 1] && r[b] == rest[b - 1];
          }
        }
    }
  }

  /** In a map keyed by record id, what `get(k)` finds has id `k`. */
  lemma IdMatchesKey(categories: OMap<Category>, k: int)
    requires forall i :: 0 <= i < |categories| ==> categories[i].value.id == categories[i].key
    ensures Get(categories, k).Some? ==> Get(categories, k).value.id == k
  {
  }

  /**
   `getExpensesByCategory`: one stat per category that has listed expenses, holding
   their amount and their count, largest total first.
   */
  function GetExpensesByCategory(s: Store): (r: seq<CategoryStat>)
    ensures NonIncreasing(r, StatTotal)
    ensures forall x :: x in r ==> exists k ::
      && Get(s.categories, k) == Some(x.category)
      && x.count == |Matching(GetExpenses(s), k)| > 0
      && x.total == SumBy(Matching(GetExpenses(s), k), AmountOf)
  {
    var es := GetExpenses(s);
    var m := Tally(es);
    var stats := Resolve(m, s.categories);
    SortDescNonIncreasing(stats, StatTotal);
    SameMembers(SortDesc(stats, StatTotal), stats);
    ResolvedStatsAreExact(es, s.categories);
    SortDesc(stats, StatTotal)
  }

  /** Each resolved stat holds the amount and count of the category it was resolved from. */
  lemma ResolvedStatsAreExact(es: seq<ExpenseWithCategory>, categories: OMap<Category>)
    ensures forall x :: x in Resolve(Tally(es), categories) ==> exists k ::
      && Get(categories, k) == Some(x.category)
      && x.count == |Matching(es, k)| > 0
      && x.total == SumBy(Matching(es, k), AmountOf)
  {
    var m := Tally(es);
    TallyDistinct(es);
    forall x | x in Resolve(m, categories)
      ensures exists k ::
        && Get(categories, k) == Some(x.category)
        && x.count == |Matching(es, k)| > 0
        && x.total == SumBy(Matching(es, k), AmountOf)
    {
      var i :| 0 <= i < |m| && Resolves(m[i], categories, x);
      GetAt(m, i);
      TallyGet(es, m[i].key);
    }
  }

  /** On a valid store each stat sits under its category's own id and holds that id's amount and count. */
  lemma ByCategoryStatsAreExact(s: Store)
    requires Valid(s)
    ensures forall x :: x in GetExpensesByCategory(s) ==>
      && Get(s.categories, x.category.id) == Some(x.category)
      && x.count == |Matching(GetExpenses(s), x.category.id)|
      && x.total == SumBy(Matching(GetExpenses(s), x.category.id), AmountOf)
  {
    forall x | x in GetExpensesByCategory(s)
      ensures Get(s.categories, x.category.id) == Some(x.category)
      ensures x.count == |Matching(GetExpenses(s), x.category.id)|
      ensures x.total == SumBy(Matching(GetExpenses(s), x.category.id), AmountOf)
    {
      var k :| && Get(s.categories, k) == Some(x.category)
               && x.count == |Matching(GetExpenses(s), k)| > 0
               && x.total == SumBy(Matching(GetExpenses(s), k), AmountOf);
      IdMatchesKey(s.categories, k);
    }
  }

  /** On a valid store no category id has two stats. */
  lemma ByCategoryIsDistinct(s: Store)
    requires Valid(s)
    ensures DistinctBy(GetExpensesByCategory(s), StatCategoryId)
  {
    var m := Tally(GetExpenses(s));
    TallyDistinct(GetExpenses(s));
    ResolveDistinct(m, s.categories);
    SortDescDistinctBy(Resolve(m, s.categories), StatTotal, StatCategoryId);
  }

  /** On a valid store every listed expense's category has a stat. */
  lemma ByCategoryIsComplete(s: Store)
    requires Valid(s)
    ensures forall e :: e in GetExpenses(s) ==>
      exists x :: x in GetExpensesByCategory(s) && x.category.id == e.expense.categoryId
  {
    var es := GetExpenses(s);
    var stats := Resolve(Tally(es), s.categories);
    SameMembers(GetExpensesByCategory(s), stats);
    forall e | e in es
      ensures exists x :: x in stats && x.category.id == e.expense.categoryId
    {
      TalliedCategoryHasStat(es, s.categories, e);
    }
  }

  /** An expense whose category resolves has a stat for that category after both loops. */
  lemma {:induction false} TalliedCategoryHasStat(es: seq<ExpenseWithCategory>, categories: OMap<Category>, e: ExpenseWithCategory)
    requires e in es && HasKey(categories, e.expense.categoryId)
    requires forall i :: 0 <= i < |categories| ==> categories[i].value.id == categories[i].key
    ensures exists x :: x in Resolve(Tally(es), categories) && x.category.id == e.expense.categoryId
  {
    var m := Tally(es);
    var k := e.expense.categoryId;
    var j :| 0 <= j < |es| && es[j] == e;
    assert e in Matching(es, k);
    TallyGet(es, k);
    GetFound(m, k);
    var i :| 0 <= i < |m| && m[i] == Entry(k, Get(m, k).value);
    var c := Get(categories, k).value;
    var x := CategoryStat(c, m[i].value.total, m[i].value.count);
    assert Resolves(m[i], categories, x);
    IdMatchesKey(categories, k);
  }

  /** The counts add up to the length of the listing and the totals to its amount. */
  lemma ByCategorySums(s: Store)
    ensures SumBy(GetExpensesByCategory(s), StatCount) == |GetExpenses(s)|
    ensures SumBy(GetExpensesByCategory(s), StatTotal) == SumBy(GetExpenses(s), AmountOf)
  {
    var es := GetExpenses(s);
    var m := Tally(es);
    var stats := Resolve(m, s.categories);
    TallyDistinct(es);
    forall i | 0 <= i < |m|
      ensures HasKey(s.categories, m[i].key)
    {
      ResolvesOnListing(es, s, m[i].key, i);
    }
    ResolveSums(m, s.categories);
    TallySums(es);
    SortDescSumBy(stats, StatTotal, StatCount);
    SortDescSumBy(stats, StatTotal, StatTotal);
  }

  /** Every entry of the loop's map is the id of a category that resolves. */
  lemma ResolvesOnListing(es: seq<ExpenseWithCategory>, s: Store, k: int, i: int)
    requires es == GetExpenses(s)
    requires DistinctKeys(Tally(es))
    requires 0 <= i < |Tally(es)| && Tally(es)[i].key == k
    ensures HasKey(s.categories, k)
  {
    GetAt(Tally(es), i);
    TallyGet(es, k);
    var y := Matching(es, k)[0];
    assert y in es && y.expense.categoryId == k;
  }
}
