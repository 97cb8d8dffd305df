/** The expenses pie chart (`ExpensesPieChart.tsx`): slice labels and the data behind the slices. */
module ExpensesPieChart {
  import opened Strings
  import opened Domain
  import opened TransactionContext

  function CapitalizeEach(words: seq<string>): (r: seq<string>)
    ensures |r| == |words| && forall i :: 0 <= i < |words| ==> r[i] == Capitalize(words[i])
  {
    seq(|words|, i requires 0 <= i < |words| => Capitalize(words[i]))
  }

  /**
   * What `formatCategoryName` puts at position `i`: an underscore becomes a space, a character
   * that starts a word is upper-cased, every other character stays.
   */
  function FormattedChar(s: string, i: nat): char
    requires i < |s|
  {
    if s[i] == '_' then ' '
    else if i == 0 || s[i - 1] == '_' then UpperChar(s[i])
    else s[i]
  }

  /** Before the first `_`, formatting capitalises the first word. */
  lemma FormattedCharInFirstWord(s: string, k: nat, i: nat)
    requires i < k <= |s| && '_' !in s[..k]
    ensures FormattedChar(s, i) == Capitalize(s[..k])[i]
  {
    assert s[i] == s[..k][i];
    if i > 0 {
      assert s[i - 1] == s[..k][i - 1];
    }
  }

  /** After an `_`, formatting proceeds as on the rest of the string. */
  lemma FormattedCharAfterSeparator(s: string, k: nat, i: nat)
    requires k < i < |s| && s[k] == '_'
    ensures FormattedChar(s, i) == FormattedChar(s[k + 1..], i - k - 1)
  {
    assert s[i] == s[k + 1..][i - k - 1];
    if i > k + 1 {
      assert s[i - 1] == s[k + 1..][i - k - 2];
    }
  }

  lemma CapitalizeEachCons(w: string, words: seq<string>)
    ensures CapitalizeEach([w] + words) == [Capitalize(w)] + CapitalizeEach(words)
  {
  }

  /** At the first `_`, formatting yields the capitalised first word, a space, and the formatted rest. */
  lemma FormatUnfold(s: string)
    requires '_' in s
    ensures var k := IndexOf(s, '_');
      Join(CapitalizeEach(Split(s, '_')), ' ')
        == Capitalize(s[..k]) + [' '] + Join(CapitalizeEach(Split(s[k + 1..], '_')), ' ')
  {
    var k := IndexOf(s, '_');
    var parts := Split(s[k + 1..], '_');
    assert Split(s, '_') == [s[..k]] + parts;
    CapitalizeEachCons(s[..k], parts);
    JoinCons(Capitalize(s[..k]), CapitalizeEach(parts), ' ');
  }

  /** The formatting of `s` matches `FormattedChar` at every position. */
  predicate FormatsPointwise(s: string, r: string) {
    |r| == |s| && forall i :: 0 <= i < |s| ==> r[i] == FormattedChar(s, i)
  }

  /** A single word is formatted by capitalising it. */
  lemma FormatSingleWord(s: string)
    requires '_' !in s
    ensures FormatsPointwise(s, Join(CapitalizeEach(Split(s, '_')), ' '))
  {
    assert Join(CapitalizeEach(Split(s, '_')), ' ') == Capitalize(s);
    assert s[..|s|] == s;
    forall i | 0 <= i < |s|
      ensures Capitalize(s)[i] == FormattedChar(s, i)
    {
      FormattedCharInFirstWord(s, |s|, i);
    }
  }

  /** If the text after the first `_` is formatted pointwise, so is the whole string. */
  lemma FormatFirstWordThenRest(s: string)
    requires '_' in s
    requires var k := IndexOf(s, '_');
      FormatsPointwise(s[k + 1..], Join(CapitalizeEach(Split(s[k + 1..], '_')), ' '))
    ensures FormatsPointwise(s, Join(CapitalizeEach(Split(s, '_')), ' '))
  {
    var k := IndexOf(s, '_');
    var tail := Join(CapitalizeEach(Split(s[k + 1..], '_')), ' ');
    var r := Join(CapitalizeEach(Split(s, '_')), ' ');
    FormatUnfold(s);
    assert r == Capitalize(s[..k]) + [' '] + tail;
    forall i | 0 <= i < |s|
      ensures r[i] == FormattedChar(s, i)
    {
      if i < k {
        FormattedCharInFirstWord(s, k, i);
      } else if i > k {
        FormattedCharAfterSeparator(s, k, i);
        assert r[i] == tail[i - k - 1];
      }
    }
  }

  lemma {:induction false} FormatPointwise(s: string)
    ensures FormatsPointwise(s, Join(CapitalizeEach(Split(s, '_')), ' '))
    decreases |s|
  {
    if '_' !in s {
      FormatSingleWord(s);
    } else {
      FormatPointwise(s[IndexOf(s, '_') + 1..]);
      FormatFirstWordThenRest(s);
    }
  }

  /** `formatCategoryName`: split on `_`, capitalise each piece, join with spaces. */
  function FormatCategoryName(s: string): (r: string)
    ensures |r| == |s|
    ensures forall i :: 0 <= i < |s| ==> r[i] == FormattedChar(s, i)
  {
    FormatPointwise(s);
    Join(CapitalizeEach(Split(s, '_')), ' ')
  }

  /** A name without underscores only gets its first character capitalised. */
  lemma FormatWithoutUnderscore(s: string)
    requires '_' !in s
    ensures FormatCategoryName(s) == Capitalize(s)
  {
    var r := FormatCategoryName(s);
    if s != [] {
      assert r[1..] == s[1..] by {
        forall i | 1 <= i < |s|
          ensures r[i] == s[i]
        {
          assert s[i - 1] != '_';
        }
      }
      assert r == [r[0]] + r[1..];
    }
  }

  lemma OtherIncomeChars(i: nat)
    requires i < 12
    ensures FormattedChar("other_income", i) == "Other Income"[i]
  {
  }

  /** The label `other_income` is shown as `Other Income`. */
  lemma FormatOtherIncome()
    ensures FormatCategoryName("other_income") == "Other Income"
  {
    var r := FormatCategoryName("other_income");
    forall i | 0 <= i < 12
      ensures r[i] == "Other Income"[i]
    {
      OtherIncomeChars(i);
    }
  }

  /** One pie slice. */
  datatype Slice = Slice(name: string, value: int, category: Category, animationDuration: int)

  /** The `data` array: one slice per expense total, in the same order. */
  function ChartData(totals: seq<CategoryTotal>): (r: seq<Slice>)
    ensures |r| == |totals|
    ensures forall i :: 0 <= i < |r| ==>
      && r[i].category == totals[i].category && r[i].value == totals[i].amount
      && r[i].name == FormatCategoryName(CategoryLabel(totals[i].category))
      && r[i].animationDuration == 1500 + 200 * i
  {
    seq(|totals|, i requires 0 <= i < |totals| =>
      Slice(FormatCategoryName(CategoryLabel(totals[i].category)), totals[i].amount, totals[i].category, 1500 + 200 * i))
  }

  function SliceTotal(slices: seq<Slice>): int {
    if slices == [] then 0 else slices[0].value + SliceTotal(slices[1..])
  }

  /** Slices whose values are the totals' amounts add up to the same grand total. */
  lemma {:induction false} SliceTotalIsTotalOf(slices: seq<Slice>, totals: seq<CategoryTotal>)
    requires |slices| == |totals| && forall i :: 0 <= i < |slices| ==> slices[i].value == totals[i].amount
    ensures SliceTotal(slices) == TotalOf(totals)
  {
    if slices != [] {
      SliceTotalIsTotalOf(slices[1..], totals[1..]);
    }
  }

  datatype PieView = NoExpenseData | Chart(slices: seq<Slice>)

  /** What the card shows: the placeholder exactly when no expense is recorded, else slices adding up to the expenses. */
  function ExpensesPie(txs: seq<Transaction>): (v: PieView)
    ensures v.NoExpenseData? <==> forall t :: t in txs ==> t.kind != Expense
    ensures v.Chart? ==> v.slices != [] && SliceTotal(v.slices) == TotalExpenses(txs)
  {
    var totals := CategoryTotals(txs, Expense);
    var data := ChartData(totals);
    if |data| == 0 then
      assert Keys(totals) == [];
      NoExpenseData
    else
      assert totals[0].category in Keys(totals);
      SliceTotalIsTotalOf(data, totals);
      CategoryTotalsAddUp(txs);
      Chart(data)
  }
}
