/**
  The category pie chart (src/components/charts/category-pie-chart.tsx): the
  amounts summed per category id into a dictionary, one entry per key with
  its label, total and share of the grand total in percent, sorted by total
  from largest to smallest.
*/
module PieChart {
  import opened Wrappers
  import opened Seqs
  import opened JsNumbers
  import opened ExpenseModel
  import opened Categories

  /**
    The dictionary the `reduce` builds, as a function of the expenses seen so
    far: a category's entry is created at 0 on its first expense and then
    grows by each amount.
  */
  function Tally(xs: seq<Expense>): map<int, real> {
    if |xs| == 0 then map[]
    else
      var acc := Tally(xs[..|xs| - 1]);
      var id := xs[|xs| - 1].categoryId;
      acc[id := (if id in acc then acc[id] else 0.0) + xs[|xs| - 1].amount]
  }

  /** The `reduce` over the expenses, mutating its accumulator in place. */
  method CategoryTotals(expenses: seq<Expense>) returns (acc: map<int, real>)
    ensures acc == Tally(expenses)
  {
    acc := map[];
    for i := 0 to |expenses|
      invariant acc == Tally(expenses[..i])
    {
      var categoryId := expenses[i].categoryId;
      if categoryId !in acc || acc[categoryId] == 0.0 {
        acc := acc[categoryId := 0.0];
      }
      acc := acc[categoryId := acc[categoryId] + expenses[i].amount];
      assert expenses[..i + 1][..i] == expenses[..i];
    }
    assert expenses[..|expenses|] == expenses;
  }

  /** One slice: its label, its total and its percentage. */
  datatype Entry = Entry(name: string, value: real, percentage: Num)

  /** The registry's icon and name for a known id, '不明' otherwise. */
  function Label(id: int): string {
    match GetCategoryById(id)
    case Some(c) => c.icon + " " + c.name
    case None => "不明"
  }

  /** `(total / grandTotal) * 100`. */
  function Percentage(total: real, grand: real): Num {
    TimesPositive(Divide(total, grand), 100.0)
  }

  function EntriesFor(keys: seq<int>, totals: map<int, real>, grand: real): (r: seq<Entry>)
    requires forall i :: 0 <= i < |keys| ==> keys[i] in totals
    ensures |r| == |keys|
  {
    if |keys| == 0 then []
    else [Entry(Label(keys[0]), totals[keys[0]], Percentage(totals[keys[0]], grand))]
         + EntriesFor(keys[1..], totals, grand)
  }

  /** The `i`-th entry is that of the `i`-th key: its label, its total and its share of the grand total. */
  lemma {:induction false} EntriesForAt(keys: seq<int>, totals: map<int, real>, grand: real, i: int)
    requires forall i :: 0 <= i < |keys| ==> keys[i] in totals
    requires 0 <= i < |keys|
    ensures EntriesFor(keys, totals, grand)[i]
         == Entry(Label(keys[i]), totals[keys[i]], Percentage(totals[keys[i]], grand))
  {
    if i > 0 {
      EntriesForAt(keys[1..], totals, grand, i - 1);
    }
  }

  function Value(e: Entry): real {
    e.value
  }

  /** The chart data: the entries of the dictionary in key order, sorted by `b.value - a.value`. */
  function PieData(xs: seq<Expense>): seq<Entry> {
    var totals := Tally(xs);
    SortDesc(EntriesFor(AscendingKeys(totals.Keys), totals, Total(xs)), Value)
  }

  /** The component's computation: the mutating `reduce`, then the map and the sort. */
  method ChartData(expenses: seq<Expense>) returns (data: seq<Entry>)
    ensures data == PieData(expenses)
  {
    var categoryTotals := CategoryTotals(expenses);
    var keys := AscendingKeys(categoryTotals.Keys);
    var grandTotal := Total(expenses);
    data := SortDesc(EntriesFor(keys, categoryTotals, grandTotal), Value);
  }

  // ---------------------------------------------------------------------
  // Properties
  // ---------------------------------------------------------------------

  predicate Occurs(xs: seq<Expense>, k: int) {
    exists i :: 0 <= i < |xs| && xs[i].categoryId == k
  }

  /** The dictionary has a key for exactly the category ids that occur. */
  lemma {:induction false} TallyKey(xs: seq<Expense>, k: int)
    ensures k in Tally(xs) <==> Occurs(xs, k)
  {
    if |xs| > 0 {
      var init := xs[..|xs| - 1];
      var e := xs[|xs| - 1];
      TallyKey(init, k);
      if Occurs(init, k) {
        var i :| 0 <= i < |init| && init[i].categoryId == k;
        assert xs[i] == init[i];
      }
      if Occurs(xs, k) && k != e.categoryId {
        var i :| 0 <= i < |xs| && xs[i].categoryId == k;
        assert init[i] == xs[i];
      }
    }
  }

  lemma {:induction false} AbsentCategorySum(xs: seq<Expense>, k: int)
    requires !Occurs(xs, k)
    ensures CategorySum(xs, k) == 0.0
  {
    FilterNone(xs, InCategory(k));
  }

  /** Each key's value is the sum of the amounts of that category's expenses. */
  lemma {:induction false} TallyValue(xs: seq<Expense>, k: int)
    requires k in Tally(xs)
    ensures Tally(xs)[k] == CategorySum(xs, k)
  {
    var init := xs[..|xs| - 1];
    var e := xs[|xs| - 1];
    assert xs == init + [e];
    CategorySumSnoc(init, e, k);
    if k in Tally(init) {
      TallyValue(init, k);
    } else {
      TallyKey(init, k);
      AbsentCategorySum(init, k);
    }
  }

  lemma {:induction false} TallyIsCategorySums(xs: seq<Expense>)
    ensures forall k :: k in Tally(xs) <==> Occurs(xs, k)
    ensures forall k :: k in Tally(xs) ==> Tally(xs)[k] == CategorySum(xs, k)
  {
    forall k
      ensures k in Tally(xs) <==> Occurs(xs, k)
      ensures k in Tally(xs) ==> Tally(xs)[k] == CategorySum(xs, k)
    {
      TallyKey(xs, k);
      if k in Tally(xs) {
        TallyValue(xs, k);
      }
    }
  }

  lemma {:induction false} EntriesValueSum(xs: seq<Expense>, keys: seq<int>, grand: real)
    requires forall i :: 0 <= i < |keys| ==> keys[i] in Tally(xs)
    ensures SumOf(EntriesFor(keys, Tally(xs), grand), Value) == SumOverCategories(xs, keys)
  {
    if |keys| > 0 {
      TallyIsCategorySums(xs);
      var r := EntriesFor(keys, Tally(xs), grand);
      assert r[1..] == EntriesFor(keys[1..], Tally(xs), grand);
      EntriesValueSum(xs, keys[1..], grand);
    }
  }

  function EntryOf(xs: seq<Expense>, k: int): Entry {
    Entry(Label(k), CategorySum(xs, k), Percentage(CategorySum(xs, k), Total(xs)))
  }

  /** Before the sort, the `i`-th entry is that of the `i`-th smallest occurring id. */
  lemma {:induction false} UnsortedEntryAt(xs: seq<Expense>, i: int)
    requires 0 <= i < |AscendingKeys(Tally(xs).Keys)|
    ensures var keys := AscendingKeys(Tally(xs).Keys);
      Occurs(xs, keys[i]) && EntriesFor(keys, Tally(xs), Total(xs))[i] == EntryOf(xs, keys[i])
  {
    var keys := AscendingKeys(Tally(xs).Keys);
    assert keys[i] in Tally(xs);
    EntriesForAt(keys, Tally(xs), Total(xs), i);
    TallyKey(xs, keys[i]);
    TallyValue(xs, keys[i]);
  }

  lemma {:induction false} PieEntryIndex(xs: seq<Expense>, e: Entry) returns (i: int)
    requires e in PieData(xs)
    ensures 0 <= i < |AscendingKeys(Tally(xs).Keys)|
    ensures EntriesFor(AscendingKeys(Tally(xs).Keys), Tally(xs), Total(xs))[i] == e
  {
    var entries := EntriesFor(AscendingKeys(Tally(xs).Keys), Tally(xs), Total(xs));
    i := SortDescFrom(entries, Value, e);
  }

  /** Every entry is the entry of a category that occurs. */
  lemma {:induction false} PieEntryFrom(xs: seq<Expense>, e: Entry) returns (k: int)
    requires e in PieData(xs)
    ensures Occurs(xs, k) && e == EntryOf(xs, k)
  {
    var i := PieEntryIndex(xs, e);
    UnsortedEntryAt(xs, i);
    k := AscendingKeys(Tally(xs).Keys)[i];
  }

  /** Every category that occurs has its entry. */
  lemma {:induction false} PieEntryFor(xs: seq<Expense>, k: int)
    requires Occurs(xs, k)
    ensures EntryOf(xs, k) in PieData(xs)
  {
    var totals := Tally(xs);
    var keys := AscendingKeys(totals.Keys);
    var entries := EntriesFor(keys, totals, Total(xs));
    TallyKey(xs, k);
    assert k in keys;
    var i :| 0 <= i < |keys| && keys[i] == k;
    UnsortedEntryAt(xs, i);
    SortDescKeeps(entries, Value, i);
  }

  /** There is one entry per occurring category: the sort only reorders. */
  lemma {:induction false} PieLength(xs: seq<Expense>)
    ensures |PieData(xs)| == |AscendingKeys(Tally(xs).Keys)|
  {
  }

  /** No expenses, no entries (the chart's empty state), and one entry per occurring category otherwise. */
  lemma {:induction false} PieEmpty(xs: seq<Expense>)
    ensures PieData(xs) == [] <==> xs == []
  {
    if xs != [] {
      assert Occurs(xs, xs[0].categoryId);
      PieEntryFor(xs, xs[0].categoryId);
    }
  }

  /** The entry totals add up to the sum of all amounts. */
  lemma {:induction false} PieSumsToTotal(xs: seq<Expense>)
    ensures SumOf(PieData(xs), Value) == Total(xs)
  {
    var totals := Tally(xs);
    TallyIsCategorySums(xs);
    var keys := AscendingKeys(totals.Keys);
    SumOfSortDesc(EntriesFor(keys, totals, Total(xs)), Value, Value);
    EntriesValueSum(xs, keys, Total(xs));
    forall i | 0 <= i < |xs|
      ensures xs[i].categoryId in keys
    {
      assert Occurs(xs, xs[i].categoryId);
    }
    SumOverCategoriesIsTotal(xs, keys);
  }

  /** The percentage as a real, 0 for a non-finite one. */
  function PercentValue(e: Entry): real {
    if e.percentage.Fin? then e.percentage.value else 0.0
  }

  lemma {:induction false} PercentagesScale(s: seq<Entry>, grand: real)
    requires grand > 0.0
    requires forall i :: 0 <= i < |s| ==> s[i].percentage == Fin(s[i].value / grand * 100.0)
    ensures SumOf(s, Value) == grand ==> SumOf(s, PercentValue) == 100.0
    ensures SumOf(s, PercentValue) == SumOf(s, Value) / grand * 100.0
  {
    if |s| > 0 {
      assert forall i :: 0 <= i < |s[1..]| ==> s[1..][i] == s[i + 1];
      PercentagesScale(s[1..], grand);
      assert PercentValue(s[0]) == s[0].value / grand * 100.0;
      ShareAdd(s[0].value, SumOf(s[1..], Value), grand);
    }
    ShareOfWhole(grand);
  }

  lemma {:induction false} ShareAdd(a: real, b: real, grand: real)
    requires grand > 0.0
    ensures a / grand * 100.0 + b / grand * 100.0 == (a + b) / grand * 100.0
  {
  }

  lemma {:induction false} ShareOfWhole(grand: real)
    requires grand > 0.0
    ensures grand / grand * 100.0 == 100.0
  {
  }

  lemma {:induction false} EntryPercentage(xs: seq<Expense>, e: Entry)
    requires Total(xs) > 0.0 && e in PieData(xs)
    ensures e.percentage == Fin(e.value / Total(xs) * 100.0)
  {
    var k := PieEntryFrom(xs, e);
  }

  /** With positive amounts every percentage is finite: the total's share in percent. */
  lemma {:induction false} PercentagesFinite(xs: seq<Expense>)
    requires |xs| > 0 && forall i :: 0 <= i < |xs| ==> xs[i].amount > 0.0
    ensures Total(xs) > 0.0
    ensures forall e :: e in PieData(xs) ==> e.percentage == Fin(e.value / Total(xs) * 100.0)
  {
    TotalPositive(xs);
    forall e | e in PieData(xs)
      ensures e.percentage == Fin(e.value / Total(xs) * 100.0)
    {
      EntryPercentage(xs, e);
    }
  }

  /** With positive amounts the percentages add up to 100. */
  lemma {:induction false} PercentagesAddUp(xs: seq<Expense>)
    requires |xs| > 0 && forall i :: 0 <= i < |xs| ==> xs[i].amount > 0.0
    ensures SumOf(PieData(xs), PercentValue) == 100.0
  {
    TotalPositive(xs);
    var g := Total(xs);
    var d := PieData(xs);
    forall i | 0 <= i < |d|
      ensures d[i].percentage == Fin(d[i].value / g * 100.0)
    {
      EntryPercentage(xs, d[i]);
    }
    PieSumsToTotal(xs);
    PercentagesScale(d, g);
  }

  /** The entries are sorted by total, from largest to smallest. */
  lemma {:induction false} PieSorted(xs: seq<Expense>)
    ensures OrderedDesc(PieData(xs), Value, Unranked)
  {
    var totals := Tally(xs);
    SortDescOrdered(EntriesFor(AscendingKeys(totals.Keys), totals, Total(xs)), Value, Unranked);
  }

  /** A known id is labelled with its icon and name; any other id is labelled '不明'. */
  lemma {:induction false} LabelCases(id: int)
    ensures 1 <= id <= 9 ==> Label(id) == Registry[id - 1].icon + " " + Registry[id - 1].name
    ensures !(1 <= id <= 9) ==> Label(id) == "不明"
  {
  }
}
