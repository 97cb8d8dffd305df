/** The dashboard page (`Dashboard.tsx`): the greeting and the PDF export of the transaction list. */
module Dashboard {
  import opened Strings
  import opened Domain
  import opened TransactionContext
  import opened ExpensesPieChart

  /** `new Date().getHours()`. */
  type Hour = h: int | 0 <= h < 24

  datatype TimeOfDay = Morning | Afternoon | Evening

  /** `getTimeOfDay`: before noon, before five in the afternoon, or later. */
  function GetTimeOfDay(hour: Hour): (t: TimeOfDay)
    ensures t == Morning <==> hour < 12
    ensures t == Afternoon <==> 12 <= hour < 17
    ensures t == Evening <==> 17 <= hour
  {
    if hour < 12 then Morning else if hour < 17 then Afternoon else Evening
  }

  /** One table row: the date, the description, the category and type as displayed, the amount. */
  datatype Row = Row(date: Date, description: string, category: string, kind: string, amount: int)

  datatype Summary = Summary(totalIncome: int, totalExpenses: int, balance: int)

  datatype Export = NothingToExport | Report(rows: seq<Row>, summary: Summary)

  /**
   * One transaction's row: date, description and amount unchanged, the category label formatted
   * letter for letter, and the type column naming the kind.
   */
  function RowOf(t: Transaction): (r: Row)
    ensures r.date == t.date && r.description == t.description && r.amount == t.amount
    ensures r.category == FormatCategoryName(CategoryLabel(t.category))
    ensures |r.category| == |CategoryLabel(t.category)|
    ensures r.kind == (if t.kind == Income then "Income" else "Expense")
  {
    TypeColumn(t.kind);
    Row(t.date, t.description, FormatCategoryName(CategoryLabel(t.category)), Capitalize(TypeLabel(t.kind)), t.amount)
  }

  /** The type column reads `Income` or `Expense`. */
  lemma TypeColumn(t: TxType)
    ensures Capitalize(TypeLabel(t)) == (if t == Income then "Income" else "Expense")
  {
    var s := Capitalize(TypeLabel(t));
    if t == Income {
      assert s[0] == 'I' && s[1..] == "ncome"[..];
    } else {
      assert s[0] == 'E' && s[1..] == "xpense"[..];
    }
  }

  /**
   * `handleExport`: nothing for an empty list; otherwise one row per transaction in list order
   * and a summary of the income total, the expense total and a balance that is both their
   * difference and the signed sum of the amounts.
   */
  function HandleExport(txs: seq<Transaction>): (e: Export)
    ensures e.NothingToExport? <==> txs == []
    ensures e.Report? ==>
      && |e.rows| == |txs|
      && (forall i :: 0 <= i < |txs| ==>
            && e.rows[i].date == txs[i].date && e.rows[i].description == txs[i].description
            && e.rows[i].amount == txs[i].amount
            && e.rows[i].category == FormatCategoryName(CategoryLabel(txs[i].category))
            && e.rows[i].kind == (if txs[i].kind == Income then "Income" else "Expense"))
      && (forall i :: 0 <= i < |txs| ==> e.rows[i] == RowOf(txs[i]))
      && e.summary.totalIncome == TotalIncome(txs) && e.summary.totalExpenses == TotalExpenses(txs)
      && e.summary.balance == SignedSum(txs)
      && e.summary.balance == e.summary.totalIncome - e.summary.totalExpenses
  {
    if txs == [] then NothingToExport
    else
      BalanceIsSignedSum(txs);
      Report(seq(|txs|, i requires 0 <= i < |txs| => RowOf(txs[i])),
             Summary(TotalIncome(txs), TotalExpenses(txs), Balance(txs)))
  }
}
