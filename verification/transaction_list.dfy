/**
 * The transaction table (`TransactionList.tsx`): the search and filter pipeline, the column sort
 * with its toggle, the category list, the per-category expense total and the category icon.
 */
module TransactionList {
  import opened Wrappers
  import opened Strings
  import opened Domain
  import opened Seqs
  import opened TransactionContext

  /** The search box and the two drop-downs; the drop-downs hold `all` or a label. */
  datatype Filters = Filters(search: string, category: string, kind: string)

  /** The filters as the page starts. */
  const NoFilters := Filters("", "all", "all")

  /**
   * The description contains the search case-insensitively, or the amount's text contains it
   * as typed. `amountText` is `Number.prototype.toString`.
   */
  predicate MatchesSearch(t: Transaction, search: string, amountText: int -> string) {
    Contains(ToLower(t.description), ToLower(search)) || Contains(amountText(t.amount), search)
  }

  predicate MatchesCategory(t: Transaction, category: string) {
    category == "all" || CategoryLabel(t.category) == category
  }

  predicate MatchesType(t: Transaction, kind: string) {
    kind == "all" || TypeLabel(t.kind) == kind
  }

  predicate Shown(t: Transaction, f: Filters, amountText: int -> string) {
    MatchesSearch(t, f.search, amountText) && MatchesCategory(t, f.category) && MatchesType(t, f.kind)
  }

  function ShownBy(f: Filters, amountText: int -> string): Transaction -> bool {
    (t: Transaction) => Shown(t, f, amountText)
  }

  /** `filteredTransactions`: the shown transactions, in list order. */
  function Filtered(txs: seq<Transaction>, f: Filters, amountText: int -> string): (r: seq<Transaction>)
    ensures IsSubsequence(r, txs)
    ensures forall t :: t in r <==> t in txs && Shown(t, f, amountText)
    ensures forall t :: multiset(r)[t] == if Shown(t, f, amountText) then multiset(txs)[t] else 0
  {
    FilterIsSubsequence(txs, ShownBy(f, amountText));
    FilterCounts(txs, ShownBy(f, amountText));
    Filter(txs, ShownBy(f, amountText))
  }

  /** Filtering a concatenation filters each part. */
  lemma FilteredOfConcat(xs: seq<Transaction>, ys: seq<Transaction>, f: Filters, amountText: int -> string)
    ensures Filtered(xs + ys, f, amountText) == Filtered(xs, f, amountText) + Filtered(ys, f, amountText)
  {
    FilterConcat(xs, ys, ShownBy(f, amountText));
  }

  /** With an empty search and both drop-downs on `all`, every transaction is shown. */
  lemma NoFiltersShowEverything(txs: seq<Transaction>, amountText: int -> string)
    ensures Filtered(txs, NoFilters, amountText) == txs
  {
    forall i | 0 <= i < |txs|
      ensures ShownBy(NoFilters, amountText)(txs[i])
    {
      assert ToLower("") == "";
      ContainsEmpty(ToLower(txs[i].description));
    }
    FilterKeepsAll(txs, ShownBy(NoFilters, amountText));
  }

  datatype SortKey = ByDate | ByDescription | ByCategory | ByAmount
  datatype Direction = Ascending | Descending
  datatype SortConfig = SortConfig(key: SortKey, direction: Direction)

  /** The table starts sorted by date, newest first. */
  const InitialSort: Option<SortConfig> := Some(SortConfig(ByDate, Descending))

  /** What the comparator compares: a number, or a lower-cased string. */
  datatype SortValue = Number(n: int) | Text(s: string)

  /** `getTime()` of the date, the amount, or the lower-cased text of the column. */
  function ValueOf(t: Transaction, key: SortKey): (v: SortValue)
    ensures v.Number? <==> key == ByDate || key == ByAmount
  {
    match key
    case ByDate => Number(DateKey(t.date))
    case ByAmount => Number(t.amount)
    case ByDescription => Text(ToLower(t.description))
    case ByCategory => Text(ToLower(CategoryLabel(t.category)))
  }

  /** JavaScript's `<` between two values of the same column. */
  predicate ValueLess(a: SortValue, b: SortValue) {
    match (a, b)
    case (Number(x), Number(y)) => x < y
    case (Text(x), Text(y)) => LexLess(x, y)
    case _ => false
  }

  /** Values of one column are totally ordered by `ValueLess`. */
  lemma ValueLessTotalOrder(a: SortValue, b: SortValue, c: SortValue)
    requires a.Number? == b.Number? == c.Number?
    ensures !ValueLess(a, a)
    ensures a == b || ValueLess(a, b) || ValueLess(b, a)
    ensures ValueLess(a, b) ==> !ValueLess(b, a)
    ensures ValueLess(a, b) && ValueLess(b, c) ==> ValueLess(a, c)
  {
    if a.Text? {
      LexLessIrreflexive(a.s);
      LexLessTrichotomy(a.s, b.s);
      if LexLess(a.s, b.s) {
        LexLessAsymmetric(a.s, b.s);
        if LexLess(b.s, c.s) {
          LexLessTransitive(a.s, b.s, c.s);
        }
      }
    }
  }

  /** The sort callback: negative when `a` goes first, positive when `b` does, zero for a tie. */
  function Compare(a: Transaction, b: Transaction, cfg: Option<SortConfig>): (r: int)
    ensures -1 <= r <= 1
    ensures cfg.None? ==> r == 0
    ensures cfg.Some? && cfg.value.direction == Ascending ==>
      (r < 0 <==> ValueLess(ValueOf(a, cfg.value.key), ValueOf(b, cfg.value.key)))
    ensures cfg.Some? && cfg.value.direction == Descending ==>
      (r < 0 <==> ValueLess(ValueOf(b, cfg.value.key), ValueOf(a, cfg.value.key)))
  {
    if cfg.None? then 0
    else
      var ascending := cfg.value.direction == Ascending;
      var va := ValueOf(a, cfg.value.key);
      var vb := ValueOf(b, cfg.value.key);
      ValueLessTotalOrder(va, vb, vb);
      if ValueLess(va, vb) then (if ascending then -1 else 1)
      else if ValueLess(vb, va) then (if ascending then 1 else -1)
      else 0
  }

  /** Swapping the arguments flips the sign. */
  lemma CompareAntisymmetric(a: Transaction, b: Transaction, cfg: Option<SortConfig>)
    ensures Compare(a, b, cfg) == -Compare(b, a, cfg)
  {
    if cfg.Some? {
      ValueLessTotalOrder(ValueOf(a, cfg.value.key), ValueOf(b, cfg.value.key), ValueOf(b, cfg.value.key));
    }
  }

  /** "May go before" is transitive. */
  lemma CompareTransitive(a: Transaction, b: Transaction, c: Transaction, cfg: Option<SortConfig>)
    requires Compare(a, b, cfg) <= 0 && Compare(b, c, cfg) <= 0
    ensures Compare(a, c, cfg) <= 0
  {
    if cfg.Some? {
      var k := cfg.value.key;
      var va, vb, vc := ValueOf(a, k), ValueOf(b, k), ValueOf(c, k);
      ValueLessTotalOrder(va, vb, vc);
      ValueLessTotalOrder(vb, vc, va);
      ValueLessTotalOrder(vc, va, vb);
      ValueLessTotalOrder(va, vc, vb);
      ValueLessTotalOrder(vc, vb, va);
      ValueLessTotalOrder(vb, va, vc);
    }
  }

  /** No element is placed before one it must follow. */
  predicate Sorted(s: seq<Transaction>, cfg: Option<SortConfig>) {
    forall i, j :: 0 <= i < j < |s| ==> Compare(s[i], s[j], cfg) <= 0
  }

  /** Insert `x` after every element that does not come strictly after it. */
  function Insert(x: Transaction, s: seq<Transaction>, cfg: Option<SortConfig>): (r: seq<Transaction>)
    requires Sorted(s, cfg)
    ensures Sorted(r, cfg)
    ensures multiset(r) == multiset(s) + multiset{x}
  {
    if s == [] then [x]
    else if Compare(x, s[0], cfg) < 0 then
      InsertInFront(x, s, cfg);
      [x] + s
    else
      CompareAntisymmetric(x, s[0], cfg);
      var rest := Insert(x, s[1..], cfg);
      assert s == [s[0]] + s[1..];
      HeadBeforeAll(s[0], rest, x, s[1..], cfg);
      [s[0]] + rest
  }

  lemma InsertInFront(x: Transaction, s: seq<Transaction>, cfg: Option<SortConfig>)
    requires Sorted(s, cfg) && s != [] && Compare(x, s[0], cfg) < 0
    ensures Sorted([x] + s, cfg)
  {
    var r := [x] + s;
    forall i, j | 0 <= i < j < |r|
      ensures Compare(r[i], r[j], cfg) <= 0
    {
      if i == 0 && j > 1 {
        CompareTransitive(x, s[0], s[j - 1], cfg);
      }
    }
  }

  lemma HeadBeforeAll(h: Transaction, rest: seq<Transaction>, x: Transaction, tail: seq<Transaction>, cfg: Option<SortConfig>)
    requires Sorted(rest, cfg) && Sorted([h] + tail, cfg)
    requires multiset(rest) == multiset(tail) + multiset{x}
    requires Compare(h, x, cfg) <= 0
    ensures Sorted([h] + rest, cfg)
  {
    var r := [h] + rest;
    forall i, j | 0 <= i < j < |r|
      ensures Compare(r[i], r[j], cfg) <= 0
    {
      if i == 0 {
        var y := rest[j - 1];
        assert y in multiset(rest);
        if y != x {
          assert y in multiset(tail);
          assert y in tail;
          var k :| 0 <= k < |tail| && tail[k] == y;
          assert ([h] + tail)[0] == h && ([h] + tail)[k + 1] == y;
        }
      } else {
        assert r[i] == rest[i - 1] && r[j] == rest[j - 1];
      }
    }
  }

  /** `[...filtered].sort(compare)`, a stable sort, written as an insertion sort. */
  function SortTransactions(xs: seq<Transaction>, cfg: Option<SortConfig>): (r: seq<Transaction>)
    ensures Sorted(r, cfg)
    ensures multiset(r) == multiset(xs)
    ensures |r| == |xs|
    decreases |xs|
  {
    if xs == [] then []
    else
      var init := xs[..|xs| - 1];
      assert xs == init + [xs[|xs| - 1]];
      var r := Insert(xs[|xs| - 1], SortTransactions(init, cfg), cfg);
      assert |r| == |multiset(r)|;
      r
  }

  /** A sorted list is ordered by the column value: ascending or descending as configured. */
  lemma SortedByColumn(s: seq<Transaction>, key: SortKey, direction: Direction)
    requires Sorted(s, Some(SortConfig(key, direction)))
    ensures direction == Ascending ==>
      forall i, j :: 0 <= i < j < |s| ==> !ValueLess(ValueOf(s[j], key), ValueOf(s[i], key))
    ensures direction == Descending ==>
      forall i, j :: 0 <= i < j < |s| ==> !ValueLess(ValueOf(s[i], key), ValueOf(s[j], key))
  {
    forall i, j | 0 <= i < j < |s|
      ensures direction == Ascending ==> !ValueLess(ValueOf(s[j], key), ValueOf(s[i], key))
      ensures direction == Descending ==> !ValueLess(ValueOf(s[i], key), ValueOf(s[j], key))
    {
      CompareAntisymmetric(s[i], s[j], Some(SortConfig(key, direction)));
    }
  }

  /** Inserting an element that may follow everything puts it at the end. */
  lemma {:induction false} InsertAfterAll(x: Transaction, s: seq<Transaction>, cfg: Option<SortConfig>)
    requires Sorted(s, cfg)
    requires forall i :: 0 <= i < |s| ==> Compare(s[i], x, cfg) <= 0
    ensures Insert(x, s, cfg) == s + [x]
  {
    if s != [] {
      CompareAntisymmetric(x, s[0], cfg);
      assert Sorted(s[1..], cfg);
      InsertAfterAll(x, s[1..], cfg);
      assert s == [s[0]] + s[1..];
    }
  }

  lemma SortUnfold(xs: seq<Transaction>, cfg: Option<SortConfig>)
    requires xs != []
    ensures SortTransactions(xs, cfg) == Insert(xs[|xs| - 1], SortTransactions(xs[..|xs| - 1], cfg), cfg)
  {
  }

  /** Sorting an already sorted list leaves it as it is; in particular sorting with no config does. */
  lemma {:induction false} SortKeepsSortedList(xs: seq<Transaction>, cfg: Option<SortConfig>)
    requires Sorted(xs, cfg)
    ensures SortTransactions(xs, cfg) == xs
    decreases |xs|
  {
    if xs != [] {
      var init := xs[..|xs| - 1];
      var last := xs[|xs| - 1];
      InitLast(xs);
      SortedSplitsOffLast(init, last, cfg);
      SortKeepsSortedList(init, cfg);
      InsertAfterAll(last, init, cfg);
      SortUnfold(xs, cfg);
    }
  }

  /** Without its last element a sorted list stays sorted, and that element may follow all the others. */
  lemma SortedSplitsOffLast(init: seq<Transaction>, last: Transaction, cfg: Option<SortConfig>)
    requires Sorted(init + [last], cfg)
    ensures Sorted(init, cfg)
    ensures forall i :: 0 <= i < |init| ==> Compare(init[i], last, cfg) <= 0
  {
    var xs := init + [last];
    forall i, j | 0 <= i < j < |init|
      ensures Compare(init[i], init[j], cfg) <= 0
    {
      assert init[i] == xs[i] && init[j] == xs[j];
    }
    forall i | 0 <= i < |init|
      ensures Compare(init[i], last, cfg) <= 0
    {
      assert init[i] == xs[i] && last == xs[|init|];
    }
  }

  lemma NoSortConfigKeepsOrder(xs: seq<Transaction>)
    ensures SortTransactions(xs, None) == xs
  {
    SortKeepsSortedList(xs, None);
  }

  /** `sortedTransactions`: the filtered list, ordered by the current column. */
  function Displayed(txs: seq<Transaction>, f: Filters, amountText: int -> string, cfg: Option<SortConfig>): (r: seq<Transaction>)
    ensures multiset(r) == multiset(Filtered(txs, f, amountText))
    ensures Sorted(r, cfg)
    ensures forall t :: t in r <==> t in txs && Shown(t, f, amountText)
  {
    var r := SortTransactions(Filtered(txs, f, amountText), cfg);
    assert forall t :: t in r <==> t in multiset(r);
    r
  }

  /** `requestSort(key)`: a second click on an ascending column turns it descending. */
  function RequestSort(cfg: Option<SortConfig>, key: SortKey): (r: SortConfig)
    ensures r.key == key
    ensures r.direction == Descending <==> cfg == Some(SortConfig(key, Ascending))
  {
    var direction := if cfg.Some? && cfg.value.key == key && cfg.value.direction == Ascending then Descending else Ascending;
    SortConfig(key, direction)
  }

  /** Clicking the same column again flips its direction, and a third click restores the second. */
  lemma RequestSortToggles(cfg: Option<SortConfig>, key: SortKey)
    ensures var once := RequestSort(cfg, key);
      var twice := RequestSort(Some(once), key);
      twice.direction != once.direction && RequestSort(Some(twice), key) == once
  {
  }

  /** `allCategories`: the categories present, each once, in order of first appearance. */
  function AllCategories(txs: seq<Transaction>): (r: seq<Category>)
    ensures Distinct(r)
    ensures forall c :: c in r <==> exists t :: t in txs && t.category == c
  {
    forall c
      ensures c in CategoriesOf(txs) <==> exists t :: t in txs && t.category == c
    {
      CategoriesOfMembership(txs, c);
    }
    Dedup(CategoriesOf(txs))
  }

  /** `categoryTotal(name)`: the expense total of the category with that name, 0 when there is none. */
  function CategoryTotalFor(txs: seq<Transaction>, name: string): (r: int)
    ensures r == if ParseCategory(name).Some? then CategorySum(Filter(txs, OfKind(Expense)), ParseCategory(name).value) else 0
  {
    var totals := CategoryTotals(txs, Expense);
    match FirstMatch(totals, (e: CategoryTotal) => CategoryLabel(e.category) == name)
    case Some(i) =>
      CategoryLabelRoundTrip(totals[i].category);
      totals[i].amount
    case None =>
      if ParseCategory(name).Some? then
        var c := ParseCategory(name).value;
        var f := Filter(txs, OfKind(Expense));
        assert c !in Keys(totals);
        forall j | 0 <= j < |f|
          ensures !InCategory(c)(f[j])
        {
          assert f[j] in f;
        }
        SelectedSumOfNone(f, InCategory(c));
        0
      else 0
  }

  /** `getCategoryIcon`: `+` for the four income categories, `-` for every other. */
  function CategoryIcon(c: Category): (r: char)
    ensures r == '+' <==> IsIncomeCategory(c)
    ensures r == '+' || r == '-'
  {
    match c
    case Salary | Freelance | Investments | OtherIncome => '+'
    case _ => '-'
  }
}
