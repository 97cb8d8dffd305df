/**
 * The client's transaction store (`TransactionContext.tsx`): the list updates that follow a
 * server reply, and the totals, per-category totals and six-month buckets derived from the list.
 */
module TransactionContext {
  import opened Wrappers
  import opened Domain
  import opened Seqs
  import ServerStore
  import ServerValidation
  import TransactionRoutes
  import Server

  /** `reduce((total, t) => total + t.amount, 0)`: a left fold over the amounts. */
  function Sum(txs: seq<Transaction>): int
    decreases |txs|
  {
    if txs == [] then 0 else Sum(txs[..|txs| - 1]) + txs[|txs| - 1].amount
  }

  lemma SumAppendOne(xs: seq<Transaction>, x: Transaction)
    ensures Sum(xs + [x]) == Sum(xs) + x.amount
  {
    assert (xs + [x])[..|xs|] == xs;
  }

  /** Summing is additive over concatenation. */
  lemma {:induction false} SumConcat(xs: seq<Transaction>, ys: seq<Transaction>)
    ensures Sum(xs + ys) == Sum(xs) + Sum(ys)
    decreases |ys|
  {
    if ys == [] {
      assert xs + ys == xs;
    } else {
      var init := ys[..|ys| - 1];
      var last := ys[|ys| - 1];
      assert ys == init + [last];
      assert xs + ys == (xs + init) + [last];
      SumConcat(xs, init);
      SumAppendOne(xs + init, last);
      SumAppendOne(init, last);
    }
  }

  /** The sum of the selected amounts grows by the new element's amount exactly when it is selected. */
  lemma SelectedSumAppendOne(xs: seq<Transaction>, x: Transaction, p: Transaction -> bool)
    ensures Sum(Filter(xs + [x], p)) == Sum(Filter(xs, p)) + (if p(x) then x.amount else 0)
  {
    FilterConcat(xs, [x], p);
    assert Filter([x], p) == if p(x) then [x] else [];
    SumConcat(Filter(xs, p), Filter([x], p));
    if p(x) {
      assert Sum([x]) == Sum([]) + x.amount by { SumAppendOne([], x); }
    }
  }

  /** Nothing selected sums to zero. */
  lemma {:induction false} SelectedSumOfNone(xs: seq<Transaction>, p: Transaction -> bool)
    requires forall i :: 0 <= i < |xs| ==> !p(xs[i])
    ensures Sum(Filter(xs, p)) == 0
  {
    if xs != [] {
      SelectedSumOfNone(xs[1..], p);
      assert Filter(xs, p) == Filter(xs[1..], p);
    }
  }

  function OfKind(kind: TxType): Transaction -> bool {
    (t: Transaction) => t.kind == kind
  }

  /** A sum of non-negative amounts is non-negative. */
  lemma {:induction false} SumNonNegative(xs: seq<Transaction>)
    requires forall t :: t in xs ==> t.amount >= 0
    ensures Sum(xs) >= 0
    decreases |xs|
  {
    if xs != [] {
      var init := xs[..|xs| - 1];
      assert forall t :: t in init ==> t in xs;
      SumNonNegative(init);
      assert xs[|xs| - 1] in xs;
    }
  }

  /**
   * Selecting one kind keeps the whole sum when every transaction is of that kind, keeps nothing
   * when none is, and never goes below zero for non-negative amounts.
   */
  lemma SelectedByKind(txs: seq<Transaction>, kind: TxType)
    ensures (forall i :: 0 <= i < |txs| ==> txs[i].kind == kind) ==> Sum(Filter(txs, OfKind(kind))) == Sum(txs)
    ensures (forall i :: 0 <= i < |txs| ==> txs[i].kind != kind) ==> Sum(Filter(txs, OfKind(kind))) == 0
    ensures (forall t :: t in txs ==> t.amount >= 0) ==> Sum(Filter(txs, OfKind(kind))) >= 0
  {
    if forall i :: 0 <= i < |txs| ==> txs[i].kind == kind {
      FilterKeepsAll(txs, OfKind(kind));
    }
    if forall i :: 0 <= i < |txs| ==> txs[i].kind != kind {
      SelectedSumOfNone(txs, OfKind(kind));
    }
    if forall t :: t in txs ==> t.amount >= 0 {
      SumNonNegative(Filter(txs, OfKind(kind)));
    }
  }

  /** `getTotalIncome`: only income counts. */
  function TotalIncome(txs: seq<Transaction>): (r: int)
    ensures (forall i :: 0 <= i < |txs| ==> txs[i].kind == Income) ==> r == Sum(txs)
    ensures (forall i :: 0 <= i < |txs| ==> txs[i].kind == Expense) ==> r == 0
    ensures (forall t :: t in txs ==> t.amount >= 0) ==> r >= 0
  {
    SelectedByKind(txs, Income);
    Sum(Filter(txs, OfKind(Income)))
  }

  /** `getTotalExpenses`: only expenses count. */
  function TotalExpenses(txs: seq<Transaction>): (r: int)
    ensures (forall i :: 0 <= i < |txs| ==> txs[i].kind == Expense) ==> r == Sum(txs)
    ensures (forall i :: 0 <= i < |txs| ==> txs[i].kind == Income) ==> r == 0
    ensures (forall t :: t in txs ==> t.amount >= 0) ==> r >= 0
  {
    SelectedByKind(txs, Expense);
    Sum(Filter(txs, OfKind(Expense)))
  }

  /** `getBalance`: all income is the whole sum, all expenses its negation. */
  function Balance(txs: seq<Transaction>): (r: int)
    ensures (forall i :: 0 <= i < |txs| ==> txs[i].kind == Income) ==> r == Sum(txs)
    ensures (forall i :: 0 <= i < |txs| ==> txs[i].kind == Expense) ==> r == -Sum(txs)
  {
    TotalIncome(txs) - TotalExpenses(txs)
  }

  /** A transaction's effect on the balance: income counts up, an expense counts down. */
  function SignedAmount(t: Transaction): int {
    if t.kind == Income then t.amount else -t.amount
  }

  /** The balance computed in one pass, as an independent reference. */
  function SignedSum(txs: seq<Transaction>): int {
    if txs == [] then 0 else SignedAmount(txs[0]) + SignedSum(txs[1..])
  }

  /** Income, expenses and balance are additive over concatenation. */
  lemma {:induction false} TotalsOfConcat(xs: seq<Transaction>, ys: seq<Transaction>)
    ensures TotalIncome(xs + ys) == TotalIncome(xs) + TotalIncome(ys)
    ensures TotalExpenses(xs + ys) == TotalExpenses(xs) + TotalExpenses(ys)
    ensures Balance(xs + ys) == Balance(xs) + Balance(ys)
  {
    FilterConcat(xs, ys, OfKind(Income));
    FilterConcat(xs, ys, OfKind(Expense));
    SumConcat(Filter(xs, OfKind(Income)), Filter(ys, OfKind(Income)));
    SumConcat(Filter(xs, OfKind(Expense)), Filter(ys, OfKind(Expense)));
  }

  /** The balance is the signed sum of all amounts, and zero for no transactions. */
  lemma {:induction false} BalanceIsSignedSum(txs: seq<Transaction>)
    ensures Balance(txs) == SignedSum(txs)
    ensures txs == [] ==> Balance(txs) == 0
  {
    if txs != [] {
      BalanceIsSignedSum(txs[1..]);
      assert txs == [txs[0]] + txs[1..];
      TotalsOfConcat([txs[0]], txs[1..]);
      BalanceOfOne(txs[0]);
    }
  }

  /** A single transaction's balance is its signed amount. */
  lemma BalanceOfOne(t: Transaction)
    ensures Balance([t]) == SignedAmount(t)
  {
    assert [] + [t] == [t];
    SelectedSumAppendOne([], t, OfKind(Income));
    SelectedSumAppendOne([], t, OfKind(Expense));
  }

  /** One entry of `getCategoryTotals`. */
  datatype CategoryTotal = CategoryTotal(category: Category, amount: int)

  function Keys(totals: seq<CategoryTotal>): (ks: seq<Category>)
    ensures |ks| == |totals| && forall i :: 0 <= i < |totals| ==> ks[i] == totals[i].category
  {
    seq(|totals|, i requires 0 <= i < |totals| => totals[i].category)
  }

  function CategoriesOf(txs: seq<Transaction>): (cs: seq<Category>)
    ensures |cs| == |txs| && forall i :: 0 <= i < |txs| ==> cs[i] == txs[i].category
  {
    seq(|txs|, i requires 0 <= i < |txs| => txs[i].category)
  }

  function InCategory(c: Category): Transaction -> bool {
    (t: Transaction) => t.category == c
  }

  /** The sum of the amounts in category `c`. */
  function CategorySum(txs: seq<Transaction>, c: Category): int {
    Sum(Filter(txs, InCategory(c)))
  }

  /**
   * `categoryMap.set(c, (categoryMap.get(c) || 0) + amount)` on a map kept as its entries in
   * insertion order: an existing key is updated in place, a new one goes to the end.
   */
  function Credit(totals: seq<CategoryTotal>, c: Category, amount: int): (r: seq<CategoryTotal>)
    requires Distinct(Keys(totals))
    ensures Keys(r) == if c in Keys(totals) then Keys(totals) else Keys(totals) + [c]
    ensures forall i :: 0 <= i < |r| ==>
      r[i].amount == (if i < |totals| then totals[i].amount else 0) + (if r[i].category == c then amount else 0)
  {
    match FirstMatch(totals, (e: CategoryTotal) => e.category == c)
    case None => totals + [CategoryTotal(c, amount)]
    case Some(i) => totals[i := CategoryTotal(c, totals[i].amount + amount)]
  }

  lemma CategoriesOfAppendOne(xs: seq<Transaction>, x: Transaction)
    ensures CategoriesOf(xs + [x]) == CategoriesOf(xs) + [x.category]
  {
  }

  lemma CategoriesOfMembership(xs: seq<Transaction>, c: Category)
    ensures c in CategoriesOf(xs) <==> exists t :: t in xs && t.category == c
  {
    if c in CategoriesOf(xs) {
      var j :| 0 <= j < |xs| && CategoriesOf(xs)[j] == c;
      assert xs[j] in xs;
    }
    if exists t :: t in xs && t.category == c {
      var t :| t in xs && t.category == c;
      var j :| 0 <= j < |xs| && xs[j] == t;
      assert CategoriesOf(xs)[j] == c;
    }
  }

  /** Crediting the next transaction extends the keys exactly as `Dedup` extends the categories. */
  lemma CreditFollowsDedup(init: seq<Transaction>, last: Transaction, t: seq<CategoryTotal>)
    requires Keys(t) == Dedup(CategoriesOf(init))
    ensures Keys(Credit(t, last.category, last.amount)) == Dedup(CategoriesOf(init + [last]))
  {
    var cs := CategoriesOf(init + [last]);
    CategoriesOfAppendOne(init, last);
    assert cs[..|cs| - 1] == CategoriesOf(init);
  }

  /** Crediting the next transaction keeps every entry equal to its category's sum. */
  lemma CreditFollowsSums(init: seq<Transaction>, last: Transaction, t: seq<CategoryTotal>)
    requires Keys(t) == Dedup(CategoriesOf(init))
    requires forall i :: 0 <= i < |t| ==> t[i].amount == CategorySum(init, t[i].category)
    ensures var r := Credit(t, last.category, last.amount);
      forall i :: 0 <= i < |r| ==> r[i].amount == CategorySum(init + [last], r[i].category)
  {
    var r := Credit(t, last.category, last.amount);
    forall i | 0 <= i < |r|
      ensures r[i].amount == CategorySum(init + [last], r[i].category)
    {
      SelectedSumAppendOne(init, last, InCategory(r[i].category));
      if i >= |t| {
        assert Keys(r)[i] == last.category;
        assert last.category !in CategoriesOf(init);
        forall j | 0 <= j < |init|
          ensures !InCategory(last.category)(init[j])
        {
          assert CategoriesOf(init)[j] == init[j].category;
        }
        SelectedSumOfNone(init, InCategory(last.category));
      }
    }
  }

  /** The `forEach` that fills the category map, one transaction after another. */
  function Tally(txs: seq<Transaction>): (r: seq<CategoryTotal>)
    ensures Keys(r) == Dedup(CategoriesOf(txs))
    ensures forall i :: 0 <= i < |r| ==> r[i].amount == CategorySum(txs, r[i].category)
    decreases |txs|
  {
    if txs == [] then []
    else
      var init := txs[..|txs| - 1];
      var last := txs[|txs| - 1];
      assert txs == init + [last];
      var t := Tally(init);
      CreditFollowsDedup(init, last, t);
      CreditFollowsSums(init, last, t);
      Credit(t, last.category, last.amount)
  }

  /** `getCategoryTotals(kind)`. */
  function CategoryTotals(txs: seq<Transaction>, kind: TxType): (r: seq<CategoryTotal>)
    ensures Distinct(Keys(r))
    ensures forall c :: c in Keys(r) <==> exists t :: t in txs && t.kind == kind && t.category == c
    ensures forall i :: 0 <= i < |r| ==> r[i].amount == CategorySum(Filter(txs, OfKind(kind)), r[i].category)
    ensures Keys(r) == Dedup(CategoriesOf(Filter(txs, OfKind(kind))))
  {
    var f := Filter(txs, OfKind(kind));
    forall c
      ensures c in CategoriesOf(f) <==> exists t :: t in txs && t.kind == kind && t.category == c
    {
      CategoriesOfMembership(f, c);
    }
    Tally(f)
  }

  /** The categories come out in the order in which each first occurs among the transactions of that kind. */
  lemma CategoryTotalsFirstOccurrenceOrder(txs: seq<Transaction>, kind: TxType)
    ensures var ks := Keys(CategoryTotals(txs, kind));
      var cs := CategoriesOf(Filter(txs, OfKind(kind)));
      forall i, j :: 0 <= i < j < |ks| ==> FirstIndexOf(cs, ks[i]) < FirstIndexOf(cs, ks[j])
  {
    DedupFirstOccurrenceOrder(CategoriesOf(Filter(txs, OfKind(kind))));
  }

  /** The sum of a list of totals. */
  function TotalOf(totals: seq<CategoryTotal>): int {
    if totals == [] then 0 else totals[0].amount + TotalOf(totals[1..])
  }

  lemma {:induction false} TotalOfAppend(totals: seq<CategoryTotal>, e: CategoryTotal)
    ensures TotalOf(totals + [e]) == TotalOf(totals) + e.amount
  {
    if totals != [] {
      assert (totals + [e])[1..] == totals[1..] + [e];
      TotalOfAppend(totals[1..], e);
    }
  }

  lemma {:induction false} TotalOfUpdate(totals: seq<CategoryTotal>, i: nat, e: CategoryTotal)
    requires i < |totals|
    ensures TotalOf(totals[i := e]) == TotalOf(totals) - totals[i].amount + e.amount
  {
    if i > 0 {
      assert totals[i := e][1..] == totals[1..][i - 1 := e];
      TotalOfUpdate(totals[1..], i - 1, e);
    }
  }

  /** Crediting an amount to a category raises the grand total by that amount. */
  lemma CreditRaisesTotal(totals: seq<CategoryTotal>, c: Category, amount: int)
    requires Distinct(Keys(totals))
    ensures TotalOf(Credit(totals, c, amount)) == TotalOf(totals) + amount
  {
    match FirstMatch(totals, (e: CategoryTotal) => e.category == c)
    case None => TotalOfAppend(totals, CategoryTotal(c, amount));
    case Some(i) => TotalOfUpdate(totals, i, CategoryTotal(c, totals[i].amount + amount));
  }

  lemma {:induction false} TallyTotal(txs: seq<Transaction>)
    ensures TotalOf(Tally(txs)) == Sum(txs)
    decreases |txs|
  {
    if txs != [] {
      var init := txs[..|txs| - 1];
      TallyTotal(init);
      CreditRaisesTotal(Tally(init), txs[|txs| - 1].category, txs[|txs| - 1].amount);
    }
  }

  /** The per-category totals add up to the total income, respectively the total expenses. */
  lemma CategoryTotalsAddUp(txs: seq<Transaction>)
    ensures TotalOf(CategoryTotals(txs, Income)) == TotalIncome(txs)
    ensures TotalOf(CategoryTotals(txs, Expense)) == TotalExpenses(txs)
  {
    TallyTotal(Filter(txs, OfKind(Income)));
    TallyTotal(Filter(txs, OfKind(Expense)));
  }

  /** One `MonthlyData` entry; `month` stands for its short month name. */
  datatype MonthBucket = MonthBucket(month: Month, income: int, expense: int)

  /**
   * The month of `new Date(year, today - (5 - k), 1)`: the k-th of the six months ending with the
   * current one, counted from the oldest.
   */
  function WindowMonth(today: Month, k: nat): (m: Month)
    requires k < 6
    ensures (m + (5 - k)) % 12 == today
    ensures k == 5 ==> m == today
  {
    (today - 5 + k) % 12
  }

  /** The six months of the window are different months of the year. */
  lemma WindowMonthsDistinct(today: Month)
    ensures forall i, j :: 0 <= i < j < 6 ==> WindowMonth(today, i) != WindowMonth(today, j)
  {
  }

  /** The six zeroed buckets `getMonthlyData` starts from. */
  function EmptyWindow(today: Month): (r: seq<MonthBucket>)
    ensures |r| == 6
    ensures forall k :: 0 <= k < 6 ==> r[k] == MonthBucket(WindowMonth(today, k), 0, 0)
  {
    seq(6, k requires 0 <= k < 6 => MonthBucket(WindowMonth(today, k), 0, 0))
  }

  predicate DistinctMonths(buckets: seq<MonthBucket>) {
    forall i, j :: 0 <= i < j < |buckets| ==> buckets[i].month != buckets[j].month
  }

  function Posted(kind: TxType, m: Month): Transaction -> bool {
    (t: Transaction) => t.kind == kind && t.date.month == m
  }

  /** The amounts of `kind` dated in month `m` of any year. */
  function MonthSum(txs: seq<Transaction>, kind: TxType, m: Month): (r: int)
    ensures (forall i :: 0 <= i < |txs| ==> txs[i].date.month != m) ==> r == 0
    ensures (forall i :: 0 <= i < |txs| ==> txs[i].kind != kind) ==> r == 0
    ensures (forall t :: t in txs ==> t.amount >= 0) ==> r >= 0
  {
    PostedSumBounds(txs, kind, m);
    Sum(Filter(txs, Posted(kind, m)))
  }

  /** Nothing posted sums to zero, and non-negative amounts to a non-negative sum. */
  lemma PostedSumBounds(txs: seq<Transaction>, kind: TxType, m: Month)
    ensures (forall i :: 0 <= i < |txs| ==> !Posted(kind, m)(txs[i])) ==> Sum(Filter(txs, Posted(kind, m))) == 0
    ensures (forall t :: t in txs ==> t.amount >= 0) ==> Sum(Filter(txs, Posted(kind, m))) >= 0
  {
    if forall i :: 0 <= i < |txs| ==> !Posted(kind, m)(txs[i]) {
      SelectedSumOfNone(txs, Posted(kind, m));
    }
    if forall t :: t in txs ==> t.amount >= 0 {
      SumNonNegative(Filter(txs, Posted(kind, m)));
    }
  }

  /** Adding a transaction to the bucket named after its month, if the window has one. */
  function Post(buckets: seq<MonthBucket>, t: Transaction): (r: seq<MonthBucket>)
    requires DistinctMonths(buckets)
    ensures |r| == |buckets|
    ensures forall k :: 0 <= k < |r| ==>
      && r[k].month == buckets[k].month
      && r[k].income == buckets[k].income + (if Posted(Income, r[k].month)(t) then t.amount else 0)
      && r[k].expense == buckets[k].expense + (if Posted(Expense, r[k].month)(t) then t.amount else 0)
  {
    match FirstMatch(buckets, (b: MonthBucket) => b.month == t.date.month)
    case None => buckets
    case Some(j) =>
      var b := buckets[j];
      buckets[j := if t.kind == Income then b.(income := b.income + t.amount) else b.(expense := b.expense + t.amount)]
  }

  /** The `forEach` over the transactions, in list order. */
  function Accumulate(buckets: seq<MonthBucket>, txs: seq<Transaction>): (r: seq<MonthBucket>)
    requires DistinctMonths(buckets)
    ensures |r| == |buckets|
    ensures forall k :: 0 <= k < |r| ==>
      && r[k].month == buckets[k].month
      && r[k].income == buckets[k].income + MonthSum(txs, Income, buckets[k].month)
      && r[k].expense == buckets[k].expense + MonthSum(txs, Expense, buckets[k].month)
    decreases |txs|
  {
    if txs == [] then buckets
    else
      var init := txs[..|txs| - 1];
      var last := txs[|txs| - 1];
      assert txs == init + [last];
      var r := Post(Accumulate(buckets, init), last);
      forall k | 0 <= k < |r|
        ensures r[k].income == buckets[k].income + MonthSum(txs, Income, buckets[k].month)
        ensures r[k].expense == buckets[k].expense + MonthSum(txs, Expense, buckets[k].month)
      {
        SelectedSumAppendOne(init, last, Posted(Income, buckets[k].month));
        SelectedSumAppendOne(init, last, Posted(Expense, buckets[k].month));
      }
      r
  }

  /**
   * `getMonthlyData` with `today` the current month: six buckets, oldest month first, each
   * holding that month's income and expenses. Only the month of a date counts, not its year.
   */
  function MonthlyData(txs: seq<Transaction>, today: Month): (r: seq<MonthBucket>)
    ensures |r| == 6
    ensures forall k :: 0 <= k < 6 ==>
      r[k] == MonthBucket(WindowMonth(today, k), MonthSum(txs, Income, WindowMonth(today, k)),
                          MonthSum(txs, Expense, WindowMonth(today, k)))
  {
    WindowMonthsDistinct(today);
    Accumulate(EmptyWindow(today), txs)
  }

  /** With no transactions every bucket is zero. */
  lemma MonthlyDataOfNothing(today: Month)
    ensures MonthlyData([], today) == EmptyWindow(today)
  {
    assert forall k :: 0 <= k < 6 ==> Filter([], Posted(Income, WindowMonth(today, k))) == [];
  }

  /** `a` and `b` are the same transaction, dated in the same month of possibly different years. */
  predicate SameMonthOfYear(a: Transaction, b: Transaction) {
    a.date.month == b.date.month && a.(date := b.date) == b
  }

  lemma {:induction false} MonthSumIgnoresYear(a: seq<Transaction>, b: seq<Transaction>, kind: TxType, m: Month)
    requires |a| == |b| && forall i :: 0 <= i < |a| ==> SameMonthOfYear(a[i], b[i])
    ensures MonthSum(a, kind, m) == MonthSum(b, kind, m)
    decreases |a|
  {
    if a != [] {
      var n := |a| - 1;
      assert a == a[..n] + [a[n]] && b == b[..n] + [b[n]];
      MonthSumIgnoresYear(a[..n], b[..n], kind, m);
      SelectedSumAppendOne(a[..n], a[n], Posted(kind, m));
      SelectedSumAppendOne(b[..n], b[n], Posted(kind, m));
    }
  }

  /** Moving transactions to another year, within the same month, does not change the buckets. */
  lemma MonthlyDataIgnoresYear(a: seq<Transaction>, b: seq<Transaction>, today: Month)
    requires |a| == |b| && forall i :: 0 <= i < |a| ==> SameMonthOfYear(a[i], b[i])
    ensures MonthlyData(a, today) == MonthlyData(b, today)
  {
    forall k | 0 <= k < 6
      ensures MonthlyData(a, today)[k] == MonthlyData(b, today)[k]
    {
      MonthSumIgnoresYear(a, b, Income, WindowMonth(today, k));
      MonthSumIgnoresYear(a, b, Expense, WindowMonth(today, k));
    }
  }

  /** A transaction dated in a month outside the window leaves every bucket unchanged. */
  lemma MonthlyDataIgnoresOutsideWindow(txs: seq<Transaction>, t: Transaction, today: Month)
    requires forall k :: 0 <= k < 6 ==> WindowMonth(today, k) != t.date.month
    ensures MonthlyData(txs + [t], today) == MonthlyData(txs, today)
  {
    forall k | 0 <= k < 6
      ensures MonthlyData(txs + [t], today)[k] == MonthlyData(txs, today)[k]
    {
      SelectedSumAppendOne(txs, t, Posted(Income, WindowMonth(today, k)));
      SelectedSumAppendOne(txs, t, Posted(Expense, WindowMonth(today, k)));
    }
  }

  /** What `GET /api/transactions` came back with. */
  datatype FetchOutcome = FetchedOk(transactions: Option<seq<Transaction>>) | FetchRefused | FetchUnreachable

  /**
   * The list `fetchTransactions` installs: empty unless a user is logged in, a token is stored and
   * the request succeeded (`data.transactions || []`).
   */
  function Fetched(loggedIn: bool, hasToken: bool, outcome: FetchOutcome): (r: seq<Transaction>)
    ensures !loggedIn || !hasToken ==> r == []
    ensures r != [] ==> outcome == FetchedOk(Some(r))
    ensures (loggedIn && hasToken && outcome.FetchedOk? && outcome.transactions.Some?) ==>
      r == outcome.transactions.value
  {
    if !loggedIn || !hasToken then []
    else match outcome
      case FetchedOk(Some(txs)) => txs
      case _ => []
  }

  /** What `POST /api/transactions` came back with. */
  datatype AddOutcome = AddedOnServer(transaction: Transaction) | AddRefused(message: string) | AddUnreachable

  /** The list after `addTransaction`: the server's copy is put in front when the request succeeded. */
  function AfterAdd(list: seq<Transaction>, loggedIn: bool, hasToken: bool, outcome: AddOutcome): (r: seq<Transaction>)
    ensures loggedIn && hasToken && outcome.AddedOnServer? ==>
      |r| == |list| + 1 && r[0] == outcome.transaction && r[1..] == list
    ensures !(loggedIn && hasToken && outcome.AddedOnServer?) ==> r == list
  {
    if loggedIn && hasToken && outcome.AddedOnServer? then [outcome.transaction] + list else list
  }

  /** An addition moves the balance by exactly the new transaction's signed amount. */
  lemma BalanceAfterAdd(list: seq<Transaction>, t: Transaction)
    ensures Balance(AfterAdd(list, true, true, AddedOnServer(t))) == Balance(list) + SignedAmount(t)
  {
    BalanceIsSignedSum(list);
    BalanceIsSignedSum([t] + list);
    assert ([t] + list)[1..] == list;
  }

  /**
   * Putting the created transaction in front of the fetched list gives what fetching again would
   * give, when the new record is stamped no earlier than any stored one.
   */
  lemma {:induction false} AddAgreesWithRefetch(st: ServerStore.Store, header: Option<string>,
                                                verify: string -> Option<ServerStore.Claims>,
                                                body: ServerValidation.TxBody, newId: string, now: int,
                                                parseDate: string -> Option<Date>)
    requires forall i :: 0 <= i < |st.records| ==> st.records[i].createdAt <= now
    requires TransactionRoutes.CreateTransaction(st, header, verify, body, newId, now, parseDate).reply.status == 201
    ensures var out := TransactionRoutes.CreateTransaction(st, header, verify, body, newId, now, parseDate);
      var before := TransactionRoutes.ListTransactions(st, header, verify).payload;
      var after := TransactionRoutes.ListTransactions(out.store, header, verify).payload;
      && before.Listing? && out.reply.payload.Created? && after.Listing?
      && AfterAdd(Fetched(true, true, FetchedOk(Some(before.transactions))), true, true,
                  AddedOnServer(out.reply.payload.transaction))
         == Fetched(true, true, FetchedOk(Some(after.transactions)))
  {
    var out := TransactionRoutes.CreateTransaction(st, header, verify, body, newId, now, parseDate);
    var rec := ServerStore.Record(out.reply.payload.transaction, now);
    assert out.store == st.(records := st.records + [rec]);
    Server.ListAfterAppend(st, rec, header, verify);
    var before := TransactionRoutes.ListTransactions(st, header, verify).payload.transactions;
    assert AfterAdd(Fetched(true, true, FetchedOk(Some(before))), true, true, AddedOnServer(rec.tx))
      == [rec.tx] + before;
  }

  /** What `DELETE /api/transactions/:id` came back with. */
  datatype DeleteOutcome = DeletedOnServer | DeleteRefused(message: string) | DeleteUnreachable

  function HasOtherId(id: string): Transaction -> bool {
    (t: Transaction) => t.id != id
  }

  /**
   * The list after `deleteTransaction(id)`: every entry with that id is dropped once the server
   * confirms, and the others keep their order. No logged-in user is required, only a stored token.
   */
  function AfterDelete(list: seq<Transaction>, id: string, hasToken: bool, outcome: DeleteOutcome): (r: seq<Transaction>)
    ensures IsSubsequence(r, list)
    ensures hasToken && outcome.DeletedOnServer? ==> forall t :: t in r <==> t in list && t.id != id
    ensures hasToken && outcome.DeletedOnServer? ==>
      forall t :: multiset(r)[t] == if t.id != id then multiset(list)[t] else 0
    ensures !(hasToken && outcome.DeletedOnServer?) ==> r == list
  {
    if hasToken && outcome.DeletedOnServer? then
      FilterIsSubsequence(list, HasOtherId(id));
      FilterCounts(list, HasOtherId(id));
      Filter(list, HasOtherId(id))
    else
      FilterKeepsAll(list, (_: Transaction) => true);
      FilterIsSubsequence(list, (_: Transaction) => true);
      list
  }

  /** Deleting an id the list does not hold changes nothing. */
  lemma DeleteOfAbsentIdKeepsList(list: seq<Transaction>, id: string, hasToken: bool, outcome: DeleteOutcome)
    requires forall i :: 0 <= i < |list| ==> list[i].id != id
    ensures AfterDelete(list, id, hasToken, outcome) == list
  {
    FilterKeepsAll(list, HasOtherId(id));
  }
}
