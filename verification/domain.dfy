/** The shared vocabulary of client and server: transaction types, the sixteen categories, dates. */
module Domain {
  import opened Wrappers

  /** `TransactionType`: `'income' | 'expense'`. (`type` is a Dafny keyword, so records call it `kind`.) */
  datatype TxType = Income | Expense

  function TypeLabel(t: TxType): string {
    match t
    case Income => "income"
    case Expense => "expense"
  }

  /** `['income', 'expense'].includes(s)`, returning the type it names. */
  function ParseType(s: string): (r: Option<TxType>)
    ensures r.Some? ==> TypeLabel(r.value) == s
    ensures r.None? <==> forall t :: TypeLabel(t) != s
  {
    if s == "income" then Some(Income)
    else if s == "expense" then Some(Expense)
    else None
  }

  /** `TransactionCategory`: four income labels followed by twelve expense labels. */
  datatype Category =
    | Salary | Freelance | Investments | OtherIncome
    | Rent | Groceries | Utilities | Entertainment | Transportation | Dining
    | Shopping | Healthcare | Education | Travel | Personal | OtherExpense

  function CategoryLabel(c: Category): string {
    match c
    case Salary => "salary"
    case Freelance => "freelance"
    case Investments => "investments"
    case OtherIncome => "other_income"
    case Rent => "rent"
    case Groceries => "groceries"
    case Utilities => "utilities"
    case Entertainment => "entertainment"
    case Transportation => "transportation"
    case Dining => "dining"
    case Shopping => "shopping"
    case Healthcare => "healthcare"
    case Education => "education"
    case Travel => "travel"
    case Personal => "personal"
    case OtherExpense => "other_expense"
  }

  /** The income group of the glossary: `salary`, `freelance`, `investments`, `other_income`. */
  predicate IsIncomeCategory(c: Category) {
    c.Salary? || c.Freelance? || c.Investments? || c.OtherIncome?
  }

  /** `validCategories.includes(s)`, returning the category it names. */
  function ParseCategory(s: string): (r: Option<Category>)
    ensures r.Some? ==> CategoryLabel(r.value) == s
    ensures r.None? <==> forall c :: CategoryLabel(c) != s
  {
    if s == "salary" then Some(Salary)
    else if s == "freelance" then Some(Freelance)
    else if s == "investments" then Some(Investments)
    else if s == "other_income" then Some(OtherIncome)
    else if s == "rent" then Some(Rent)
    else if s == "groceries" then Some(Groceries)
    else if s == "utilities" then Some(Utilities)
    else if s == "entertainment" then Some(Entertainment)
    else if s == "transportation" then Some(Transportation)
    else if s == "dining" then Some(Dining)
    else if s == "shopping" then Some(Shopping)
    else if s == "healthcare" then Some(Healthcare)
    else if s == "education" then Some(Education)
    else if s == "travel" then Some(Travel)
    else if s == "personal" then Some(Personal)
    else if s == "other_expense" then Some(OtherExpense)
    else None
  }

  /** Every label parses back to its own category, so distinct categories have distinct labels. */
  lemma CategoryLabelRoundTrip(c: Category)
    ensures ParseCategory(CategoryLabel(c)) == Some(c)
  {
    match c
    case Salary =>
    case Freelance =>
    case Investments =>
    case OtherIncome =>
    case Rent =>
    case Groceries =>
    case Utilities =>
    case Entertainment =>
    case Transportation =>
    case Dining =>
    case Shopping =>
    case Healthcare =>
    case Education =>
    case Travel =>
    case Personal =>
    case OtherExpense =>
  }

  lemma TypeLabelRoundTrip(t: TxType)
    ensures ParseType(TypeLabel(t)) == Some(t)
  {
  }

  type Month = m: int | 0 <= m < 12
  type DayOfMonth = d: int | 1 <= d <= 31 witness 1

  /** A calendar date; the month is 0-based, as `Date.prototype.getMonth` returns it. */
  datatype Date = Date(year: int, month: Month, day: DayOfMonth)

  /** A stand-in for `getTime()`: strictly increasing in (year, month, day) order. */
  function DateKey(d: Date): int {
    (d.year * 12 + d.month) * 32 + d.day
  }

  /** A transaction as the API returns it and the client holds it; `amount` is in cents. */
  datatype Transaction = Transaction(
    id: string,
    userId: string,
    amount: int,
    category: Category,
    kind: TxType,
    description: string,
    date: Date)
}
