/**
 The record shapes of the expense tracker's shared schema: categories, expenses,
 the insert payloads the API accepts, the partial payload of an update, and the
 expense-joined-with-category shape every read returns.

 Amounts are whole cents and dates are millisecond timestamps.
 */
module Schema {
  import opened Outcomes

  datatype Category = Category(id: int, name: string, icon: string, color: string, description: Option<string>)

  /** A category as submitted for creation: everything but the id. */
  datatype InsertCategory = InsertCategory(name: string, icon: string, color: string, description: Option<string>)
  {
    /** `{ ...insertCategory, id }` */
    function WithId(id: int): Category
    {
      Category(id, name, icon, color, description)
    }
  }

  datatype Expense = Expense(id: int, amount: int, description: string, categoryId: int, date: int, createdAt: int)

  /** An expense as submitted for creation: no id, no creation time. */
  datatype InsertExpense = InsertExpense(amount: int, description: string, categoryId: int, date: int)
  {
    /** `{ ...insertExpense, id, createdAt }` */
    function Stored(id: int, createdAt: int): Expense
    {
      Expense(id, amount, description, categoryId, date, createdAt)
    }
  }

  /** A partial insert payload: each field is either supplied or absent. */
  datatype ExpenseUpdate = ExpenseUpdate(amount: Option<int>, description: Option<string>, categoryId: Option<int>, date: Option<int>)

  /** `{ ...expense, ...update }`: supplied fields replace, absent ones are kept. */
  function ApplyUpdate(e: Expense, u: ExpenseUpdate): Expense
  {
    Expense(e.id, u.amount.GetOr(e.amount), u.description.GetOr(e.description),
            u.categoryId.GetOr(e.categoryId), u.date.GetOr(e.date), e.createdAt)
  }

  /** `{ ...expense, category }` */
  datatype ExpenseWithCategory = ExpenseWithCategory(expense: Expense, category: Category)

  /** One row of the per-category analytics. */
  datatype CategoryStat = CategoryStat(category: Category, total: int, count: int)

  function DateOf(x: ExpenseWithCategory): int { x.expense.date }

  function AmountOf(x: ExpenseWithCategory): int { x.expense.amount }
}
