/**
 The HTTP handlers over the store, reduced to what they decide: the status code,
 the body, and the store they leave behind. A request body either passes the
 schema (`Parsed`) or fails it (`Invalid`, which the handlers answer with 400);
 a path id is what `parseInt` produced, `None` standing for `NaN`.

 The summary handler's calendar boundaries come in as a `Clock`.
 */
module Routes {
  import opened Outcomes
  import opened Seqs
  import opened OrderedMap
  import opened Schema
  import opened Storage
  import opened StorageAnalytics
  import opened Calendar

  /** The outcome of validating a request body against its schema. */
  datatype Parsed<+T> = Parsed(value: T) | Invalid

  /** A status code and, for the statuses that carry one, the JSON record. */
  datatype Response<+T> = Response(status: int, body: Option<T>)

  const Ok200 := 200
  const Created201 := 201
  const NoContent204 := 204
  const BadRequest400 := 400
  const NotFound404 := 404
  const ServerError500 := 500

  /** `POST /api/categories`: 400 on a schema failure, otherwise 201 and the created category. */
  function HandlePostCategory(s: Store, body: Parsed<InsertCategory>): (r: (Store, Response<Category>))
    ensures body.Invalid? ==> r.0 == s && r.1 == Response(BadRequest400, None)
    ensures body.Parsed? ==>
      && r.1.status == Created201
      && r.1.body == Some(body.value.WithId(s.currentCategoryId))
      && r.0.currentCategoryId == s.currentCategoryId + 1
      && GetCategoryById(r.0, s.currentCategoryId) == Some(body.value.WithId(s.currentCategoryId))
      && (forall k :: k != s.currentCategoryId ==> GetCategoryById(r.0, k) == GetCategoryById(s, k))
      && r.0.expenses == s.expenses && r.0.currentExpenseId == s.currentExpenseId
  {
    match body
    case Invalid => (s, Response(BadRequest400, None))
    case Parsed(c) =>
      CreateCategoryFinds(s, c);
      var (s', created) := CreateCategory(s, c);
      (s', Response(Created201, Some(created)))
  }

  /** A 201 from the category route is a category the listing now shows, last, and the store stays valid. */
  lemma PostedCategoryIsListed(s: Store, body: Parsed<InsertCategory>)
    requires Valid(s)
    requires HandlePostCategory(s, body).1.status == Created201
    ensures Valid(HandlePostCategory(s, body).0)
    ensures GetCategories(HandlePostCategory(s, body).0) ==
      GetCategories(s) + [HandlePostCategory(s, body).1.body.value]
  {
    CreateCategoryAppends(s, body.value);
  }

  /**
   `POST /api/expenses`: 400 on a schema failure. Otherwise the store always takes
   the record and spends the id; the answer is 201 with the joined record when the
   category resolves and 500 when it does not.
   */
  function HandlePostExpense(s: Store, body: Parsed<InsertExpense>, now: int): (r: (Store, Response<ExpenseWithCategory>))
    ensures body.Invalid? ==> r.0 == s && r.1 == Response(BadRequest400, None)
    ensures body.Parsed? ==>
      && r.1.status == (if HasKey(s.categories, body.value.categoryId) then Created201 else ServerError500)
      && (r.1.status == Created201 <==> r.1.body.Some?)
      && r.0.currentExpenseId == s.currentExpenseId + 1
      && Get(r.0.expenses, s.currentExpenseId) == Some(body.value.Stored(s.currentExpenseId, now))
  {
    match body
    case Invalid => (s, Response(BadRequest400, None))
    case Parsed(e) =>
      var (s', result) := CreateExpense(s, e, now);
      match result
      case Ok(x) => (s', Response(Created201, Some(x)))
      case Err(_) => (s', Response(ServerError500, None))
  }

  /** A 201 from the expense route is a record the listing now shows. */
  lemma PostedExpenseIsListed(s: Store, body: Parsed<InsertExpense>, now: int)
    requires Valid(s)
    requires HandlePostExpense(s, body, now).1.status == Created201
    ensures HandlePostExpense(s, body, now).1.body.value in GetExpenses(HandlePostExpense(s, body, now).0)
  {
    CreatedExpenseIsListed(s, body.value, now);
  }

  /**
   `PUT /api/expenses/:id`: 400 on a schema failure; otherwise 200 with the joined
   record when the update returns one, and 404 when it does not, which covers an
   absent id, a `NaN` id, and a merge whose category dangles (that merge is stored).
   */
  function HandlePutExpense(s: Store, id: Option<int>, body: Parsed<ExpenseUpdate>): (r: (Store, Response<ExpenseWithCategory>))
    ensures body.Invalid? ==> r.0 == s && r.1 == Response(BadRequest400, None)
    ensures body.Parsed? && id.None? ==> r.0 == s && r.1 == Response(NotFound404, None)
    ensures body.Parsed? && id.Some? ==>
      && (r.1.status == Ok200 <==>
           HasKey(s.expenses, id.value)
           && HasKey(s.categories, ApplyUpdate(Get(s.expenses, id.value).value, body.value).categoryId))
      && (r.1.status == Ok200 || r.1.status == NotFound404)
      && (r.1.status == Ok200 ==> r.1.body == GetExpenseById(r.0, id.value))
      && (HasKey(s.expenses, id.value) ==>
           Get(r.0.expenses, id.value) == Some(ApplyUpdate(Get(s.expenses, id.value).value, body.value)))
      && (!HasKey(s.expenses, id.value) ==> r.0 == s)
  {
    match body
    case Invalid => (s, Response(BadRequest400, None))
    case Parsed(u) =>
      match id
      case None => (s, Response(NotFound404, None))
      case Some(i) =>
        var (s', updated) := UpdateExpense(s, i, u);
        match updated
        case Some(x) => (s', Response(Ok200, Some(x)))
        case None => (s', Response(NotFound404, None))
  }

  /** A 404 from PUT does not mean nothing changed: a dangling category is stored anyway. */
  lemma PutNotFoundMayStillWrite(s: Store, id: int, u: ExpenseUpdate)
    requires HasKey(s.expenses, id)
    requires u.categoryId.Some? && !HasKey(s.categories, u.categoryId.value)
    ensures HandlePutExpense(s, Some(id), Parsed(u)).1.status == NotFound404
    ensures Get(HandlePutExpense(s, Some(id), Parsed(u)).0.expenses, id).value.categoryId == u.categoryId.value
  {
  }

  /** `DELETE /api/expenses/:id`: 204 exactly when an expense was removed, 404 otherwise. */
  function HandleDeleteExpense(s: Store, id: Option<int>): (r: (Store, Response<ExpenseWithCategory>))
    ensures r.1.status == NoContent204 <==> id.Some? && HasKey(s.expenses, id.value)
    ensures r.1.status == NoContent204 || r.1.status == NotFound404
    ensures r.1.body.None?
    ensures id.Some? ==> !HasKey(r.0.expenses, id.value)
    ensures r.1.status == NotFound404 ==> r.0.expenses == s.expenses
    ensures forall k :: id.Some? && k != id.value ==> Get(r.0.expenses, k) == Get(s.expenses, k)
    ensures id.None? ==> r.0 == s
    ensures r.0.categories == s.categories
    ensures r.0.currentCategoryId == s.currentCategoryId && r.0.currentExpenseId == s.currentExpenseId
  {
    match id
    case None => (s, Response(NotFound404, None))
    case Some(i) =>
      var (s', deleted) := DeleteExpense(s, i);
      (s', Response(if deleted then NoContent204 else NotFound404, None))
  }

  /** Deleting twice: the first may succeed, the second is always 404. */
  lemma DeleteTwiceIsNotFound(s: Store, id: int)
    ensures HandleDeleteExpense(HandleDeleteExpense(s, Some(id)).0, Some(id)).1.status == NotFound404
  {
  }

  datatype Summary = Summary(todayTotal: int, weekTotal: int, monthTotal: int, averageDaily: real)

  /** `a / b` on the reals, 0 when `b` is not positive. */
  function RatioOrZero(a: int, b: int): (r: real)
    ensures b > 0 ==> r * (b as real) == a as real
    ensures b <= 0 ==> r == 0.0
  {
    if b > 0 then (a as real) / (b as real) else 0.0
  }

  /** The amount of the expenses the store lists with `start <= date <= end`. */
  function RangeTotal(s: Store, start: int, end: int): int
  {
    SumBy(GetExpensesByDateRange(s, start, end), AmountOf)
  }

  /**
   `GET /api/analytics/summary`: today is `[today, tomorrow]` with BOTH ends included,
   the week `[weekStart, now]`, the month `[monthStart, now]`, and the daily average
   is the month total over the day of the month.
   */
  function HandleSummary(s: Store, c: Clock): (r: Summary)
    ensures r.averageDaily == RatioOrZero(r.monthTotal, c.dayOfMonth)
  {
    var month := RangeTotal(s, c.monthStart, c.now);
    var average := RatioOrZero(month, c.dayOfMonth);
    Summary(RangeTotal(s, c.today, c.Tomorrow()), RangeTotal(s, c.WeekStart(), c.now), month, average)
  }

  /**
   An expense dated after now but no later than midnight tomorrow (midnight itself
   included) is in today's total yet in neither the week's nor the month's.
   */
  lemma LaterTodayCountsOnlyInToday(s: Store, c: Clock, x: ExpenseWithCategory)
    requires c.WellFormed()
    requires x in GetExpenses(s)
    requires c.now < x.expense.date <= c.Tomorrow()
    ensures x in GetExpensesByDateRange(s, c.today, c.Tomorrow())
    ensures x !in GetExpensesByDateRange(s, c.WeekStart(), c.now)
    ensures x !in GetExpensesByDateRange(s, c.monthStart, c.now)
  {
  }

  /**
   An expense dated exactly at midnight belongs to the today total of the day that
   ends there and to that of the day that starts there.
   */
  lemma MidnightCountsOnTwoDays(s: Store, c: Clock, x: ExpenseWithCategory)
    requires x in GetExpenses(s)
    requires x.expense.date == c.Tomorrow()
    ensures x in GetExpensesByDateRange(s, c.today, c.Tomorrow())
    ensures x in GetExpensesByDateRange(s, c.Tomorrow(), c.Tomorrow() + DayMs)
  {
  }

  /**
   On a well-formed clock the week so far is the days of the week before today plus
   today so far; on a Sunday there are no earlier days and the week is today alone.
   */
  lemma WeekIsPastDaysPlusToday(s: Store, c: Clock)
    requires c.WellFormed()
    ensures HandleSummary(s, c).weekTotal ==
      (if c.weekday == 0 then 0 else RangeTotal(s, c.WeekStart(), c.today - 1)) + RangeTotal(s, c.today, c.now)
  {
    if c.weekday > 0 {
      DateRangeSplits(s, c.WeekStart(), c.today - 1, c.now);
    } else {
      assert c.WeekStart() == c.today;
    }
  }

  /**
   A store whose only listed expense is dated today, no later than now: it is the
   whole of the today, week and month totals, and the daily average is its amount
   over the day of the month.
   */
  lemma SummaryOfOneExpenseToday(s: Store, c: Clock, x: ExpenseWithCategory)
    requires c.WellFormed()
    requires GetExpenses(s) == [x]
    requires c.today <= x.expense.date <= c.now
    ensures HandleSummary(s, c).todayTotal == x.expense.amount
    ensures HandleSummary(s, c).weekTotal == x.expense.amount
    ensures HandleSummary(s, c).monthTotal == x.expense.amount
    ensures HandleSummary(s, c).averageDaily == (x.expense.amount as real) / (c.dayOfMonth as real)
  {
    OneInWindow(x, c.today, c.Tomorrow());
    OneInWindow(x, c.WeekStart(), c.now);
    OneInWindow(x, c.monthStart, c.now);
  }

  lemma OneInWindow(x: ExpenseWithCategory, start: int, end: int)
    requires start <= x.expense.date <= end
    ensures SumBy(Filter([x], InWindow(start, end)), AmountOf) == x.expense.amount
  {
    assert Filter([x], InWindow(start, end)) == [x];
  }
}
