/**
 The in-memory store (`MemStorage`): two insertion-ordered maps, categories and
 expenses, each with an id counter that only ever grows. Every operation is a pure
 function from the old store to the new store and the operation's answer.

 Reads join each expense to its category; an expense whose category does not
 resolve is silently left out of every read.
 */
module Storage {
  import opened Outcomes
  import opened Seqs
  import opened Sorting
  import opened OrderedMap
  import opened Schema

  datatype Store = Store(
    categories: OMap<Category>,
    expenses: OMap<Expense>,
    currentCategoryId: int,
    currentExpenseId: int)

  /** The error `createExpense` throws when the expense's category is missing. */
  datatype StoreError = CategoryNotFound

  /**
   What every reachable store satisfies: each map is keyed by its records' ids, the
   keys follow insertion order upwards, and every key is below its counter (so the
   counter never hands out an id already in use).
   */
  ghost predicate Valid(s: Store)
  {
    CategoriesKeyed(s.categories, s.currentCategoryId) && ExpensesKeyed(s.expenses, s.currentExpenseId)
  }

  ghost predicate CategoriesKeyed(m: OMap<Category>, next: int)
  {
    && StrictlyAscending(m)
    && forall i :: 0 <= i < |m| ==> m[i].value.id == m[i].key && m[i].key < next
  }

  ghost predicate ExpensesKeyed(m: OMap<Expense>, next: int)
  {
    && StrictlyAscending(m)
    && forall i :: 0 <= i < |m| ==> m[i].value.id == m[i].key && m[i].key < next
  }

  /** The seven categories the constructor installs. */
  const DefaultCategories: seq<InsertCategory> := [
    InsertCategory("Food & Dining", "fas fa-utensils", "red", Some("Restaurants, cafes, groceries")),
    InsertCategory("Transportation", "fas fa-car", "blue", Some("Gas, public transport, ride-sharing")),
    InsertCategory("Shopping", "fas fa-shopping-cart", "green", Some("Clothes, electronics, household items")),
    InsertCategory("Entertainment", "fas fa-gamepad", "purple", Some("Movies, games, events")),
    InsertCategory("Utilities", "fas fa-bolt", "yellow", Some("Electricity, water, internet")),
    InsertCategory("Healthcare", "fas fa-heartbeat", "pink", Some("Medical expenses, pharmacy")),
    InsertCategory("Other", "fas fa-question", "gray", Some("Miscellaneous expenses"))
  ]

  /** Both maps empty and both counters at 1, before the default categories go in. */
  const Empty: Store := Store([], [], 1, 1)

  /** `createCategory` applied to each of `cs` in turn. */
  function SeedCategories(s: Store, cs: seq<InsertCategory>): Store
    decreases |cs|
  {
    if |cs| == 0 then s else SeedCategories(CreateCategory(s, cs[0]).0, cs[1..])
  }

  /** The constructor: an empty store seeded with the default categories. */
  function Init(): (r: Store)
    ensures Valid(r)
    ensures |r.categories| == 7 && r.currentCategoryId == 8
    ensures forall i :: 0 <= i < 7 ==>
      r.categories[i].key == i + 1 && r.categories[i].value == DefaultCategories[i].WithId(i + 1)
    ensures r.expenses == [] && r.currentExpenseId == 1
  {
    DefaultCount();
    SeedFromEmpty(DefaultCategories);
    SeedCategories(Empty, DefaultCategories)
  }

  lemma DefaultCount()
    ensures |DefaultCategories| == 7
  {
  }

  /** Seeding the empty store gives a valid store holding exactly the seeded entries, numbered from 1. */
  lemma SeedFromEmpty(cs: seq<InsertCategory>)
    ensures Valid(SeedCategories(Empty, cs))
    ensures |SeedCategories(Empty, cs).categories| == |cs|
    ensures forall i :: 0 <= i < |cs| ==>
      SeedCategories(Empty, cs).categories[i].key == i + 1 &&
      SeedCategories(Empty, cs).categories[i].value == cs[i].WithId(i + 1)
    ensures SeedCategories(Empty, cs).currentCategoryId == 1 + |cs|
    ensures SeedCategories(Empty, cs).expenses == [] && SeedCategories(Empty, cs).currentExpenseId == 1
  {
    SeedCategoriesKeepsValid(Empty, cs);
    SeedCategoriesAppends(Empty, cs);
    assert [] + SeedEntries(1, cs) == SeedEntries(1, cs);
    SeedEntriesAt(1, cs);
  }

  /** The entries seeding appends: one per input, numbered on from `next`. */
  function SeedEntries(next: int, cs: seq<InsertCategory>): seq<Entry<Category>>
    decreases |cs|
  {
    if |cs| == 0 then [] else [Entry(next, cs[0].WithId(next))] + SeedEntries(next + 1, cs[1..])
  }

  lemma {:induction false} SeedEntriesAt(next: int, cs: seq<InsertCategory>)
    ensures |SeedEntries(next, cs)| == |cs|
    ensures forall i :: 0 <= i < |cs| ==>
      SeedEntries(next, cs)[i].key == next + i && SeedEntries(next, cs)[i].value == cs[i].WithId(next + i)
    decreases |cs|
  {
    if |cs| > 0 {
      SeedEntriesAt(next + 1, cs[1..]);
      var t := SeedEntries(next + 1, cs[1..]);
      assert SeedEntries(next, cs) == [Entry(next, cs[0].WithId(next))] + t;
      forall i | 0 < i < |cs|
        ensures SeedEntries(next, cs)[i] == t[i - 1] && cs[1..][i - 1] == cs[i]
      {
      }
    }
  }

  /** Seeding keeps the store valid. */
  lemma {:induction false} SeedCategoriesKeepsValid(s: Store, cs: seq<InsertCategory>)
    requires Valid(s)
    ensures Valid(SeedCategories(s, cs))
    decreases |cs|
  {
    if |cs| > 0 {
      CreateCategoryAppends(s, cs[0]);
      SeedCategoriesKeepsValid(CreateCategory(s, cs[0]).0, cs[1..]);
    }
  }

  /**
   Seeding appends one category per input, numbered on from the counter, and
   touches nothing else.
   */
  lemma {:induction false} SeedCategoriesAppends(s: Store, cs: seq<InsertCategory>)
    requires forall i :: 0 <= i < |s.categories| ==> s.categories[i].key < s.currentCategoryId
    ensures SeedCategories(s, cs).categories == s.categories + SeedEntries(s.currentCategoryId, cs)
    ensures SeedCategories(s, cs).currentCategoryId == s.currentCategoryId + |cs|
    ensures SeedCategories(s, cs).expenses == s.expenses
    ensures SeedCategories(s, cs).currentExpenseId == s.currentExpenseId
    decreases |cs|
  {
    if |cs| == 0 {
      assert s.categories + [] == s.categories;
    } else {
      var next := s.currentCategoryId;
      var s1 := CreateCategory(s, cs[0]).0;
      var e := Entry(next, cs[0].WithId(next));
      SetFresh(s.categories, next, cs[0].WithId(next));
      AppendKeysBelow(s.categories, next, cs[0].WithId(next));
      SeedCategoriesAppends(s1, cs[1..]);
      var tail := SeedEntries(next + 1, cs[1..]);
      assert SeedEntries(next, cs) == [e] + tail;
      AppendAssoc(s.categories, [e], tail);
    }
  }

  /** `getCategories`: every category, in insertion order. */
  function GetCategories(s: Store): (r: seq<Category>)
    ensures |r| == |s.categories|
    ensures forall i :: 0 <= i < |r| ==> r[i] == s.categories[i].value
  {
    Values(s.categories)
  }

  /** `getCategoryById`: the category stored under `id`, or nothing when the id is unknown. */
  function GetCategoryById(s: Store, id: int): (r: Option<Category>)
    ensures r.Some? <==> HasKey(s.categories, id)
  {
    Get(s.categories, id)
  }

  /** On a valid store, looking a category up by id agrees with the listing, both ways. */
  lemma CategoryByIdAgreesWithList(s: Store, id: int, c: Category)
    requires Valid(s)
    ensures GetCategoryById(s, id) == Some(c) <==> c in GetCategories(s) && c.id == id
  {
    if GetCategoryById(s, id) == Some(c) {
      GetFound(s.categories, id);
      var i :| 0 <= i < |s.categories| && s.categories[i] == Entry(id, c);
      assert GetCategories(s)[i] == c;
    }
    if c in GetCategories(s) && c.id == id {
      var i :| 0 <= i < |GetCategories(s)| && GetCategories(s)[i] == c;
      AscendingDistinct(s.categories);
      GetAt(s.categories, i);
    }
  }

  /**
   `createCategory`: the input under the next category id. The counter moves on by
   one and no other id's lookup changes (`CreateCategoryFinds` states that the new
   category is found under its id).
   */
  function CreateCategory(s: Store, c: InsertCategory): (r: (Store, Category))
    ensures r.1 == c.WithId(s.currentCategoryId)
    ensures r.0.currentCategoryId == s.currentCategoryId + 1
    ensures forall k :: k != s.currentCategoryId ==> GetCategoryById(r.0, k) == GetCategoryById(s, k)
    ensures r.0.expenses == s.expenses && r.0.currentExpenseId == s.currentExpenseId
  {
    var id := s.currentCategoryId;
    var category := c.WithId(id);
    (s.(categories := Set(s.categories, id, category), currentCategoryId := id + 1), category)
  }

  /** The created category is found under the id it was given. */
  lemma CreateCategoryFinds(s: Store, c: InsertCategory)
    ensures GetCategoryById(CreateCategory(s, c).0, s.currentCategoryId) == Some(CreateCategory(s, c).1)
  {
    GetSet(s.categories, s.currentCategoryId, c.WithId(s.currentCategoryId));
  }

  /** On a valid store, creating a category appends it to the listing and keeps the store valid. */
  lemma CreateCategoryAppends(s: Store, c: InsertCategory)
    requires Valid(s)
    ensures Valid(CreateCategory(s, c).0)
    ensures GetCategories(CreateCategory(s, c).0) == GetCategories(s) + [CreateCategory(s, c).1]
  {
    var id := s.currentCategoryId;
    SetFresh(s.categories, id, c.WithId(id));
    CategoriesKeyedAppend(s.categories, id, c.WithId(id));
  }

  /** Appending a category under the next id, carrying that id, keeps the categories keyed. */
  lemma CategoriesKeyedAppend(m: OMap<Category>, next: int, c: Category)
    requires CategoriesKeyed(m, next) && c.id == next
    ensures CategoriesKeyed(m + [Entry(next, c)], next + 1)
  {
    AppendAscending(m, next, c);
    var m' := m + [Entry(next, c)];
    forall i | 0 <= i < |m'|
      ensures m'[i].value.id == m'[i].key && m'[i].key < next + 1
    {
      if i < |m| {
        assert m'[i] == m[i];
      }
    }
  }

  /** The expense joined with its category, when that category exists. */
  function Join(e: Expense, categories: OMap<Category>): (r: Option<ExpenseWithCategory>)
    ensures r.Some? <==> HasKey(categories, e.categoryId)
    ensures r.Some? ==> r.value.expense == e && Some(r.value.category) == Get(categories, e.categoryId)
  {
    match Get(categories, e.categoryId)
    case Some(c) => Some(ExpenseWithCategory(e, c))
    case None => None
  }

  /** The join loop of `getExpenses`: expenses in order, orphans skipped. */
  function JoinAll(es: seq<Expense>, categories: OMap<Category>): (r: seq<ExpenseWithCategory>)
    ensures forall x :: x in r <==> x.expense in es && Get(categories, x.expense.categoryId) == Some(x.category)
    ensures |r| == |Filter(es, (e: Expense) => HasKey(categories, e.categoryId))|
  {
    if |es| == 0 then []
    else
      assert es == [es[0]] + es[1..];
      (match Join(es[0], categories) case Some(x) => [x] case None => []) + JoinAll(es[1..], categories)
  }

  lemma {:induction false} JoinAllAppend(a: seq<Expense>, b: seq<Expense>, categories: OMap<Category>)
    ensures JoinAll(a + b, categories) == JoinAll(a, categories) + JoinAll(b, categories)
  {
    if |a| == 0 {
      assert a + b == b;
    } else {
      assert (a + b)[0] == a[0] && (a + b)[1..] == a[1..] + b;
      JoinAllAppend(a[1..], b, categories);
      var head := match Join(a[0], categories) case Some(x) => [x] case None => [];
      assert JoinAll(a + b, categories) == head + JoinAll(a[1..] + b, categories);
      assert JoinAll(a, categories) == head + JoinAll(a[1..], categories);
      AppendAssoc(head, JoinAll(a[1..], categories), JoinAll(b, categories));
    }
  }

  /**
   `getExpenses`: exactly the stored expenses whose category resolves, each joined
   with that category, most recent first.
   */
  function GetExpenses(s: Store): (r: seq<ExpenseWithCategory>)
    ensures forall x :: x in r <==>
      x.expense in Values(s.expenses) && Get(s.categories, x.expense.categoryId) == Some(x.category)
    ensures |r| == |Filter(Values(s.expenses), (e: Expense) => HasKey(s.categories, e.categoryId))|
    ensures NonIncreasing(r, DateOf)
  {
    var joined := JoinAll(Values(s.expenses), s.categories);
    SortDescNonIncreasing(joined, DateOf);
    SameMembers(SortDesc(joined, DateOf), joined);
    SortDesc(joined, DateOf)
  }

  /** `getExpenseById`: the joined expense, or nothing if the expense or its category is missing. */
  function GetExpenseById(s: Store, id: int): (r: Option<ExpenseWithCategory>)
    ensures r.Some? <==> HasKey(s.expenses, id) && HasKey(s.categories, Get(s.expenses, id).value.categoryId)
    ensures r.Some? ==> Some(r.value.expense) == Get(s.expenses, id)
  {
    match Get(s.expenses, id)
    case None => None
    case Some(e) => Join(e, s.categories)
  }

  /** Looking one expense up by id agrees with the full listing, both ways. */
  lemma ExpenseByIdAgreesWithList(s: Store, id: int, x: ExpenseWithCategory)
    requires Valid(s)
    ensures GetExpenseById(s, id) == Some(x) <==> x in GetExpenses(s) && x.expense.id == id
  {
    if GetExpenseById(s, id) == Some(x) {
      GetFound(s.expenses, id);
      var i :| 0 <= i < |s.expenses| && s.expenses[i] == Entry(id, x.expense);
      assert Values(s.expenses)[i] == x.expense;
    }
    if x in GetExpenses(s) && x.expense.id == id {
      var i :| 0 <= i < |Values(s.expenses)| && Values(s.expenses)[i] == x.expense;
      AscendingDistinct(s.expenses);
      GetAt(s.expenses, i);
    }
  }

  /**
   `createExpense`: the record is stored under the next expense id and the counter
   moves on BEFORE the category is looked up, so a dangling category makes the call
   throw with the orphan already stored and its id spent.
   */
  function CreateExpense(s: Store, e: InsertExpense, now: int): (r: (Store, Result<ExpenseWithCategory, StoreError>))
    ensures r.0.currentExpenseId == s.currentExpenseId + 1
    ensures Get(r.0.expenses, s.currentExpenseId) == Some(e.Stored(s.currentExpenseId, now))
    ensures forall k :: k != s.currentExpenseId ==> Get(r.0.expenses, k) == Get(s.expenses, k)
    ensures r.0.categories == s.categories && r.0.currentCategoryId == s.currentCategoryId
    ensures r.1.Err? <==> !HasKey(s.categories, e.categoryId)
    ensures r.1.Ok? ==> GetExpenseById(r.0, s.currentExpenseId) == Some(r.1.value)
  {
    var id := s.currentExpenseId;
    var expense := e.Stored(id, now);
    var s' := s.(expenses := Set(s.expenses, id, expense), currentExpenseId := id + 1);
    GetSet(s.expenses, id, expense);
    match Join(expense, s.categories)
    case Some(x) => (s', Ok(x))
    case None => (s', Err(CategoryNotFound))
  }

  /** On a valid store, a create appends the new record to the expense map and keeps the store valid. */
  lemma CreateExpenseAppends(s: Store, e: InsertExpense, now: int)
    requires Valid(s)
    ensures Valid(CreateExpense(s, e, now).0)
    ensures Values(CreateExpense(s, e, now).0.expenses) == Values(s.expenses) + [e.Stored(s.currentExpenseId, now)]
  {
    var id := s.currentExpenseId;
    SetFresh(s.expenses, id, e.Stored(id, now));
    ExpensesKeyedAppend(s.expenses, id, e.Stored(id, now));
  }

  /** Appending an expense under the next id, carrying that id, keeps the expenses keyed. */
  lemma ExpensesKeyedAppend(m: OMap<Expense>, next: int, x: Expense)
    requires ExpensesKeyed(m, next) && x.id == next
    ensures ExpensesKeyed(m + [Entry(next, x)], next + 1)
  {
    AppendAscending(m, next, x);
    var m' := m + [Entry(next, x)];
    forall i | 0 <= i < |m'|
      ensures m'[i].value.id == m'[i].key && m'[i].key < next + 1
    {
      if i < |m| {
        assert m'[i] == m[i];
      }
    }
  }

  /** A created expense with a live category shows up in the listing. */
  lemma CreatedExpenseIsListed(s: Store, e: InsertExpense, now: int)
    requires Valid(s)
    requires CreateExpense(s, e, now).1.Ok?
    ensures CreateExpense(s, e, now).1.value in GetExpenses(CreateExpense(s, e, now).0)
  {
    var r := CreateExpense(s, e, now);
    CreateExpenseAppends(s, e, now);
    ExpenseByIdAgreesWithList(r.0, s.currentExpenseId, r.1.value);
  }

  /**
   A create whose category dangles fails, yet it still stores the orphan and spends
   its id; the orphan stays invisible to the listing.
   */
  lemma OrphanCreateIsStoredButHidden(s: Store, e: InsertExpense, now: int)
    requires Valid(s)
    requires !HasKey(s.categories, e.categoryId)
    ensures CreateExpense(s, e, now).1 == Err(CategoryNotFound)
    ensures HasKey(CreateExpense(s, e, now).0.expenses, s.currentExpenseId)
    ensures CreateExpense(s, e, now).0.currentExpenseId == s.currentExpenseId + 1
    ensures GetExpenses(CreateExpense(s, e, now).0) == GetExpenses(s)
  {
    var r := CreateExpense(s, e, now);
    var orphan := e.Stored(s.currentExpenseId, now);
    CreateExpenseAppends(s, e, now);
    JoinAllAppend(Values(s.expenses), [orphan], s.categories);
    assert JoinAll([orphan], s.categories) == [];
    assert JoinAll(Values(r.0.expenses), r.0.categories) == JoinAll(Values(s.expenses), s.categories);
  }

  /**
   Ids are never reused: after any delete, the next create's id is above every id
   the store held before the delete.
   */
  lemma IdsAreNeverReused(s: Store, deleted: int, e: InsertExpense, now: int)
    requires Valid(s)
    ensures var s1 := DeleteExpense(s, deleted).0;
      var id := CreateExpense(s1, e, now).0.currentExpenseId - 1;
      && HasKey(CreateExpense(s1, e, now).0.expenses, id)
      && !HasKey(s.expenses, id)
      && forall i :: 0 <= i < |s.expenses| ==> s.expenses[i].key < id
  {
    var s1 := DeleteExpense(s, deleted).0;
    assert Get(CreateExpense(s1, e, now).0.expenses, s1.currentExpenseId).Some?;
  }

  /**
   `updateExpense`: on a missing id, nothing. Otherwise the merged record is stored
   (only the supplied fields change), and the answer is the joined record, or
   nothing when the merged category dangles, even though the merge was stored.
   */
  function UpdateExpense(s: Store, id: int, u: ExpenseUpdate): (r: (Store, Option<ExpenseWithCategory>))
    ensures !HasKey(s.expenses, id) ==> r == (s, None)
    ensures HasKey(s.expenses, id) ==>
      Get(r.0.expenses, id) == Some(ApplyUpdate(Get(s.expenses, id).value, u))
    ensures forall k :: k != id ==> Get(r.0.expenses, k) == Get(s.expenses, k)
    ensures r.0.categories == s.categories
    ensures r.0.currentCategoryId == s.currentCategoryId && r.0.currentExpenseId == s.currentExpenseId
    ensures r.1.Some? <==>
      HasKey(s.expenses, id) && HasKey(s.categories, ApplyUpdate(Get(s.expenses, id).value, u).categoryId)
    ensures r.1.Some? ==> r.1 == GetExpenseById(r.0, id)
  {
    match Get(s.expenses, id)
    case None => (s, None)
    case Some(e) =>
      var merged := ApplyUpdate(e, u);
      GetSet(s.expenses, id, merged);
      (s.(expenses := Set(s.expenses, id, merged)), Join(merged, s.categories))
  }

  /** Updates keep the store valid: the merged record keeps its id. */
  lemma UpdateExpenseKeepsValid(s: Store, id: int, u: ExpenseUpdate)
    requires Valid(s)
    ensures Valid(UpdateExpense(s, id, u).0)
  {
    var s' := UpdateExpense(s, id, u).0;
    if HasKey(s.expenses, id) {
      assert |s'.expenses| == |s.expenses|;
      AscendingDistinct(s.expenses);
      AscendingDistinct(s'.expenses);
      GetFound(s.expenses, id);
      forall i | 0 <= i < |s.expenses|
        ensures s'.expenses[i].value.id == s'.expenses[i].key
      {
        GetAt(s'.expenses, i);
        if s'.expenses[i].key != id {
          GetAt(s.expenses, i);
        }
      }
    }
  }

  /**
   An update that points the expense at a missing category is persisted but answered
   with nothing; the expense then drops out of the listing.
   */
  lemma DanglingUpdateIsStoredButHidden(s: Store, id: int, u: ExpenseUpdate)
    requires Valid(s)
    requires HasKey(s.expenses, id)
    requires u.categoryId.Some? && !HasKey(s.categories, u.categoryId.value)
    ensures UpdateExpense(s, id, u).1 == None
    ensures Get(UpdateExpense(s, id, u).0.expenses, id).value.categoryId == u.categoryId.value
    ensures forall x :: x in GetExpenses(UpdateExpense(s, id, u).0) ==> x.expense.id != id
  {
    var s' := UpdateExpense(s, id, u).0;
    UpdateExpenseKeepsValid(s, id, u);
    forall x | x in GetExpenses(s')
      ensures x.expense.id != id
    {
      if x.expense.id == id {
        ExpenseByIdAgreesWithList(s', id, x);
      }
    }
  }

  /** `deleteExpense`: whether the id was present; afterwards it is absent and nothing else changed. */
  function DeleteExpense(s: Store, id: int): (r: (Store, bool))
    ensures r.1 <==> HasKey(s.expenses, id)
    ensures !HasKey(r.0.expenses, id)
    ensures forall k :: k != id ==> Get(r.0.expenses, k) == Get(s.expenses, k)
    ensures r.0.categories == s.categories
    ensures r.0.currentCategoryId == s.currentCategoryId && r.0.currentExpenseId == s.currentExpenseId
  {
    var d := Delete(s.expenses, id);
    (s.(expenses := d.0), d.1)
  }

  /** Deletes keep the store valid. */
  lemma DeleteExpenseKeepsValid(s: Store, id: int)
    requires Valid(s)
    ensures Valid(DeleteExpense(s, id).0)
  {
    var d := Delete(s.expenses, id);
    SubsequenceDistinctKeys(d.0, s.expenses);
  }

  /** Deleting twice: the second delete reports that nothing was there. */
  lemma SecondDeleteFails(s: Store, id: int)
    ensures DeleteExpense(DeleteExpense(s, id).0, id) == (DeleteExpense(s, id).0, false)
  {
  }
}
