/**
 The expense table's view of the expense list: a search over the description
 (case-insensitive substring), a category selector (`"all"` or a category id
 printed as a string), and a sort chosen by name. The amounts are whole cents and
 the dates millisecond timestamps, so the source's `parseFloat` and
 `new Date(..).getTime()` are the identity here.
 */
module ExpenseTable {
  import opened Seqs
  import opened Sorting
  import opened Schema
  import opened Text

  const AllCategories := "all"
  const DateNewest := "date-newest"
  const DateOldest := "date-oldest"
  const AmountHigh := "amount-high"
  const AmountLow := "amount-low"

  /** The description contains the search term, ignoring the case of ASCII letters. */
  predicate MatchesSearch(x: ExpenseWithCategory, term: string)
  {
    Contains(Lower(x.expense.description), Lower(term))
  }

  /** Either every category is selected or the expense's category id prints as the selection. */
  predicate MatchesCategory(x: ExpenseWithCategory, selected: string)
  {
    selected == AllCategories || IntToString(x.expense.categoryId) == selected
  }

  /** The table's filter callback. */
  function Keeps(term: string, selected: string): ExpenseWithCategory -> bool
  {
    (x: ExpenseWithCategory) => MatchesSearch(x, term) && MatchesCategory(x, selected)
  }

  /** The key of the comparator that always answers 0. */
  function NoKey(x: ExpenseWithCategory): int { 0 }

  /** The table's `sort` call: the comparator is picked by name, and an unknown name keeps the order. */
  function ApplySort(s: seq<ExpenseWithCategory>, sortBy: string): (r: seq<ExpenseWithCategory>)
    ensures multiset(r) == multiset(s)
    ensures sortBy == DateNewest ==> NonIncreasing(r, DateOf)
    ensures sortBy == DateOldest ==> NonDecreasing(r, DateOf)
    ensures sortBy == AmountHigh ==> NonIncreasing(r, AmountOf)
    ensures sortBy == AmountLow ==> NonDecreasing(r, AmountOf)
    ensures sortBy !in {DateNewest, DateOldest, AmountHigh, AmountLow} ==> r == s
  {
    if sortBy == DateNewest then
      SortDescNonIncreasing(s, DateOf);
      SortDesc(s, DateOf)
    else if sortBy == DateOldest then
      SortAscNonDecreasing(s, DateOf);
      SortAsc(s, DateOf)
    else if sortBy == AmountHigh then
      SortDescNonIncreasing(s, AmountOf);
      SortDesc(s, AmountOf)
    else if sortBy == AmountLow then
      SortAscNonDecreasing(s, AmountOf);
      SortAsc(s, AmountOf)
    else
      SortDescConstantKey(s, NoKey, 0);
      SortDesc(s, NoKey)
  }

  /**
   `filteredExpenses`: the expenses the search and the selector both keep, in the
   chosen order. Nothing is invented or duplicated, and every kept expense is shown.
   */
  function FilteredExpenses(expenses: seq<ExpenseWithCategory>, term: string, selected: string, sortBy: string)
    : (r: seq<ExpenseWithCategory>)
    ensures multiset(r) <= multiset(expenses)
    ensures forall x ::
      multiset(r)[x] == if MatchesSearch(x, term) && MatchesCategory(x, selected) then multiset(expenses)[x] else 0
    ensures forall x :: x in r <==> x in expenses && MatchesSearch(x, term) && MatchesCategory(x, selected)
    ensures sortBy == DateNewest ==> NonIncreasing(r, DateOf)
    ensures sortBy == DateOldest ==> NonDecreasing(r, DateOf)
    ensures sortBy == AmountHigh ==> NonIncreasing(r, AmountOf)
    ensures sortBy == AmountLow ==> NonDecreasing(r, AmountOf)
  {
    var kept := Filter(expenses, Keeps(term, selected));
    FilterSubMultiset(expenses, Keeps(term, selected));
    var r := ApplySort(kept, sortBy);
    SameMembers(r, kept);
    assert forall x :: x in expenses && Keeps(term, selected)(x) ==> x in kept;
    forall x
      ensures multiset(r)[x] ==
        (if MatchesSearch(x, term) && MatchesCategory(x, selected) then multiset(expenses)[x] else 0)
    {
      FilterMultiplicity(expenses, Keeps(term, selected), x);
    }
    r
  }

  /** With an empty search and every category selected the table shows every expense, each once. */
  lemma EverythingShownByDefault(expenses: seq<ExpenseWithCategory>, sortBy: string)
    ensures multiset(FilteredExpenses(expenses, "", AllCategories, sortBy)) == multiset(expenses)
  {
    forall i | 0 <= i < |expenses|
      ensures Keeps("", AllCategories)(expenses[i])
    {
      ContainsEmpty(Lower(expenses[i].expense.description));
    }
    FilterKeepsAll(expenses, Keeps("", AllCategories));
  }

  /** An unknown sort name leaves the expenses in the order they arrived. */
  lemma UnknownSortKeepsOrder(expenses: seq<ExpenseWithCategory>, term: string, selected: string, sortBy: string)
    requires sortBy !in {DateNewest, DateOldest, AmountHigh, AmountLow}
    ensures FilteredExpenses(expenses, term, selected, sortBy) == Filter(expenses, Keeps(term, selected))
  {
  }

  /** Typing the search term in capitals finds the same expenses in the same order. */
  lemma SearchIgnoresCase(expenses: seq<ExpenseWithCategory>, term: string, selected: string, sortBy: string)
    ensures FilteredExpenses(expenses, Upper(term), selected, sortBy) == FilteredExpenses(expenses, term, selected, sortBy)
  {
    LowerUpper(term);
    FilterCongruent(expenses, Keeps(Upper(term), selected), Keeps(term, selected));
  }

  /**
   Selecting a category by its printed id shows exactly that category's expenses:
   the printed ids of two different categories never coincide.
   */
  lemma SelectingACategory(expenses: seq<ExpenseWithCategory>, term: string, k: int, sortBy: string)
    ensures forall x :: x in FilteredExpenses(expenses, term, IntToString(k), sortBy) <==>
      x in expenses && MatchesSearch(x, term) && x.expense.categoryId == k
  {
    assert IntToString(k)[0] != AllCategories[0];
    forall x: ExpenseWithCategory
      ensures MatchesCategory(x, IntToString(k)) <==> x.expense.categoryId == k
    {
      IntToStringInjective(x.expense.categoryId, k);
    }
  }
}
