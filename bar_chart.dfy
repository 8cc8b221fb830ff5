/**
  The stacked bar chart by category (src/components/charts/category-bar-chart.tsx):
  the same periods as the trend chart (without the hourly view), each bar
  carrying the total of every category with spending in it and the period's
  total; periods without spending are dropped.
*/
module BarChart {
  import opened Seqs
  import opened ExpenseModel
  import opened Categories
  import opened Periods

  /**
    One bar: the interval's first instant, `categoryTotals` as (name, total)
    pairs in the order the registry fills them, and the total.
  */
  datatype Bar = Bar(interval: int, byCategory: seq<(string, real)>, total: real)

  /**
    The entries `categories.forEach` writes: one per category whose total is
    positive, in the order of `cats`.
  */
  function CategoryEntries(xs: seq<Expense>, cats: seq<Category>): seq<(string, real)> {
    if |cats| == 0 then []
    else
      var t := CategorySum(xs, cats[0].id);
      (if t > 0.0 then [(cats[0].name, t)] else []) + CategoryEntries(xs, cats[1..])
  }

  /** Every entry is the (name, total) of a category of `cats` whose total is positive. */
  lemma {:induction false} CategoryEntryFrom(xs: seq<Expense>, cats: seq<Category>, en: (string, real)) returns (j: int)
    requires en in CategoryEntries(xs, cats)
    ensures 0 <= j < |cats| && CategorySum(xs, cats[j].id) > 0.0
    ensures en == (cats[j].name, CategorySum(xs, cats[j].id))
  {
    var t := CategorySum(xs, cats[0].id);
    if t > 0.0 && en == (cats[0].name, t) {
      j := 0;
    } else {
      var k := CategoryEntryFrom(xs, cats[1..], en);
      assert cats[1..][k] == cats[k + 1];
      j := k + 1;
    }
  }

  /** Every category of `cats` whose total is positive has its (name, total) entry. */
  lemma {:induction false} CategoryEntryFor(xs: seq<Expense>, cats: seq<Category>, j: int)
    requires 0 <= j < |cats| && CategorySum(xs, cats[j].id) > 0.0
    ensures (cats[j].name, CategorySum(xs, cats[j].id)) in CategoryEntries(xs, cats)
  {
    if j > 0 {
      assert cats[1..][j - 1] == cats[j];
      CategoryEntryFor(xs, cats[1..], j - 1);
    }
  }

  lemma {:induction false} CategoryEntriesSnoc(xs: seq<Expense>, cats: seq<Category>, c: Category)
    ensures CategoryEntries(xs, cats + [c])
         == CategoryEntries(xs, cats) + (if CategorySum(xs, c.id) > 0.0 then [(c.name, CategorySum(xs, c.id))] else [])
  {
    if |cats| == 0 {
      assert [c][1..] == [];
    } else {
      assert (cats + [c])[1..] == cats[1..] + [c];
      CategoryEntriesSnoc(xs, cats[1..], c);
    }
  }

  lemma {:induction false} CategoryEntriesPrefix(xs: seq<Expense>, cats: seq<Category>, i: int)
    requires 0 <= i < |cats|
    ensures CategoryEntries(xs, cats[..i + 1])
         == CategoryEntries(xs, cats[..i])
          + (if CategorySum(xs, cats[i].id) > 0.0 then [(cats[i].name, CategorySum(xs, cats[i].id))] else [])
  {
    assert cats[..i + 1] == cats[..i] + [cats[i]];
    CategoryEntriesSnoc(xs, cats[..i], cats[i]);
  }

  /**
    The `forEach` filling `categoryTotals` for the expenses of one period;
    the chart runs it over the registry, `cats == Registry`.
  */
  method FillCategoryTotals(periodExpenses: seq<Expense>, cats: seq<Category>) returns (entries: seq<(string, real)>)
    ensures entries == CategoryEntries(periodExpenses, cats)
  {
    entries := [];
    for i := 0 to |cats|
      invariant entries == CategoryEntries(periodExpenses, cats[..i])
    {
      var category := cats[i];
      var total := CategorySum(periodExpenses, category.id);
      CategoryEntriesPrefix(periodExpenses, cats, i);
      if total > 0.0 {
        entries := entries + [(category.name, total)];
      }
    }
    assert cats[..|cats|] == cats;
  }

  /** The bar of one window. */
  function BarOf(w: Window, xs: seq<Expense>): Bar {
    var periodExpenses := Filter(xs, InWindow(w));
    Bar(w.start, CategoryEntries(periodExpenses, Registry), Total(periodExpenses))
  }

  function Bars(ws: seq<Window>, xs: seq<Expense>): (r: seq<Bar>)
    ensures |r| == |ws|
    ensures forall i :: 0 <= i < |ws| ==> r[i] == BarOf(ws[i], xs)
  {
    if |ws| == 0 then [] else [BarOf(ws[0], xs)] + Bars(ws[1..], xs)
  }

  function HasSpending(b: Bar): bool {
    b.total > 0.0
  }

  function HasSpendingFilter(): Bar -> bool {
    (b: Bar) => HasSpending(b)
  }

  /** `generateChartData`: the bars of all periods from the first date to the last, without the empty ones. */
  function BarData(xs: seq<Expense>, p: Period, cal: Calendar): seq<Bar> {
    if |xs| == 0 then []
    else Filter(Bars(DayWindows(p, cal, MinDate(xs), MaxDate(xs)), xs), HasSpendingFilter())
  }

  /** `generateChartData` as the component runs it, with the switch choosing the intervals. */
  method GenerateChartData(xs: seq<Expense>, p: Period, cal: Calendar) returns (data: seq<Bar>)
    ensures data == BarData(xs, p, cal)
  {
    if |xs| == 0 {
      return [];
    }
    var windows := DayWindows(p, cal, MinDate(xs), MaxDate(xs));
    var bars: seq<Bar> := [];
    for i := 0 to |windows|
      invariant |bars| == i
      invariant forall k :: 0 <= k < i ==> bars[k] == BarOf(windows[k], xs)
    {
      var periodExpenses := Filter(xs, InWindow(windows[i]));
      var categoryTotals := FillCategoryTotals(periodExpenses, Registry);
      bars := bars + [Bar(windows[i].start, categoryTotals, Total(periodExpenses))];
    }
    assert bars == Bars(windows, xs);
    data := Filter(bars, HasSpendingFilter());
  }

  // ---------------------------------------------------------------------
  // Properties
  // ---------------------------------------------------------------------

  function Ids(cats: seq<Category>): (r: seq<int>)
    ensures |r| == |cats|
    ensures forall i :: 0 <= i < |cats| ==> r[i] == cats[i].id
  {
    if |cats| == 0 then [] else [cats[0].id] + Ids(cats[1..])
  }

  /** The value of a (name, total) entry. */
  function EntryTotal(en: (string, real)): real {
    en.1
  }

  /** Dropping the categories without spending loses nothing when no amount is negative. */
  lemma {:induction false} EntriesSumOverCategories(xs: seq<Expense>, cats: seq<Category>)
    requires forall i :: 0 <= i < |xs| ==> xs[i].amount > 0.0
    ensures SumOf(CategoryEntries(xs, cats), EntryTotal) == SumOverCategories(xs, Ids(cats))
  {
    if |cats| > 0 {
      var t := CategorySum(xs, cats[0].id);
      var inCat := Filter(xs, InCategory(cats[0].id));
      TotalPositive(inCat);
      var head: seq<(string, real)> := if t > 0.0 then [(cats[0].name, t)] else [];
      SumOfAppend(head, CategoryEntries(xs, cats[1..]), EntryTotal);
      assert Ids(cats)[1..] == Ids(cats[1..]);
      EntriesSumOverCategories(xs, cats[1..]);
    }
  }

  /** Categories numbered 1, 2, … in order have distinct ids, exactly 1..|cats|. */
  lemma {:induction false} NumberedIds(cats: seq<Category>)
    requires forall i :: 0 <= i < |cats| ==> cats[i].id == i + 1
    ensures Distinct(Ids(cats))
    ensures forall k :: 1 <= k <= |cats| <==> k in Ids(cats)
  {
    var ids := Ids(cats);
    forall k | 1 <= k <= |cats|
      ensures k in ids
    {
      assert ids[k - 1] == k;
    }
  }

  /** The registry's ids are distinct and are exactly 1..9. */
  lemma RegistryIds()
    ensures Distinct(Ids(Registry))
    ensures forall k :: 1 <= k <= 9 <==> k in Ids(Registry)
  {
    RegistryShape();
    NumberedIds(Registry);
  }

  /**
    With positive amounts and every category_id in the registry, the
    registry's entries add up to the total.
  */
  lemma {:induction false} RegistryEntriesAddUp(ys: seq<Expense>)
    requires forall i :: 0 <= i < |ys| ==> ys[i].amount > 0.0 && 1 <= ys[i].categoryId <= 9
    ensures SumOf(CategoryEntries(ys, Registry), EntryTotal) == Total(ys)
  {
    RegistryIds();
    EntriesSumOverCategories(ys, Registry);
    SumOverCategoriesIsTotal(ys, Ids(Registry));
  }

  /** A bar's category values add up to its total. */
  lemma BarCategoriesAddUp(w: Window, xs: seq<Expense>)
    requires forall i :: 0 <= i < |xs| ==> xs[i].amount > 0.0 && 1 <= xs[i].categoryId <= 9
    ensures SumOf(BarOf(w, xs).byCategory, EntryTotal) == BarOf(w, xs).total
  {
    var inside := Filter(xs, InWindow(w));
    forall i | 0 <= i < |inside|
      ensures inside[i].amount > 0.0 && 1 <= inside[i].categoryId <= 9
    {
      var k :| 0 <= k < |xs| && xs[k] == inside[i];
    }
    RegistryEntriesAddUp(inside);
  }

  /** Every bar shown has spending and comes from a period; every period with spending has its bar. */
  lemma BarsShown(xs: seq<Expense>, p: Period, cal: Calendar)
    requires |xs| > 0
    ensures var ws := DayWindows(p, cal, MinDate(xs), MaxDate(xs));
      var d := BarData(xs, p, cal);
      && (forall i :: 0 <= i < |d| ==> d[i].total > 0.0 && d[i] in Bars(ws, xs))
      && (forall i :: 0 <= i < |ws| && BarOf(ws[i], xs).total > 0.0 ==> BarOf(ws[i], xs) in d)
  {
    var ws := DayWindows(p, cal, MinDate(xs), MaxDate(xs));
    var bs := Bars(ws, xs);
    var d := Filter(bs, HasSpendingFilter());
    assert BarData(xs, p, cal) == d;
    forall i | 0 <= i < |d|
      ensures d[i].total > 0.0 && d[i] in bs
    {
      assert HasSpendingFilter()(d[i]);
    }
    forall i | 0 <= i < |ws| && BarOf(ws[i], xs).total > 0.0
      ensures BarOf(ws[i], xs) in d
    {
      assert bs[i] == BarOf(ws[i], xs);
      assert HasSpendingFilter()(bs[i]);
    }
  }

  /** The bars shown are in chronological order. */
  lemma BarsChronological(xs: seq<Expense>, p: Period, cal: Calendar)
    requires WellFormed(cal) && |xs| > 0
    ensures IncreasingIntervals(BarData(xs, p, cal))
  {
    var lo, hi := MinDate(xs), MaxDate(xs);
    var ws := DayWindows(p, cal, lo, hi);
    var bs := Bars(ws, xs);
    WindowStartsIncreasing(p, cal, lo, hi);
    assert IncreasingIntervals(bs) by {
      forall i, j | 0 <= i < j < |bs|
        ensures bs[i].interval < bs[j].interval
      {
        assert bs[i] == BarOf(ws[i], xs) && bs[j] == BarOf(ws[j], xs);
      }
    }
    FilterKeepsIncreasing(bs, HasSpendingFilter());
  }

  ghost predicate IncreasingIntervals(bs: seq<Bar>) {
    forall i, j :: 0 <= i < j < |bs| ==> bs[i].interval < bs[j].interval
  }

  /** The windows between two dates start later and later. */
  lemma WindowStartsIncreasing(p: Period, cal: Calendar, lo: int, hi: int)
    requires WellFormed(cal)
    ensures var ws := DayWindows(p, cal, lo, hi);
      forall i, j :: 0 <= i < j < |ws| ==> ws[i].start < ws[j].start
  {
    var s := Spans(p, cal, lo, hi);
    var ws := DayWindows(p, cal, lo, hi);
    SpansContiguous(p, cal, lo, hi);
    forall i, j | 0 <= i < j < |ws|
      ensures ws[i].start < ws[j].start
    {
      ContiguousOrdered(s, i, j);
      assert ws[i] == DayWindow(s[i]) && ws[j] == DayWindow(s[j]);
    }
  }

  /** Dropping bars keeps the rest in order. */
  lemma {:induction false} FilterKeepsIncreasing(bs: seq<Bar>, keep: Bar -> bool)
    requires IncreasingIntervals(bs)
    ensures IncreasingIntervals(Filter(bs, keep))
  {
    if |bs| > 0 {
      var init := bs[..|bs| - 1];
      var last := bs[|bs| - 1];
      assert IncreasingIntervals(init);
      FilterKeepsIncreasing(init, keep);
      var f := Filter(init, keep);
      forall i | 0 <= i < |f|
        ensures f[i].interval < last.interval
      {
        var k :| 0 <= k < |init| && init[k] == f[i];
      }
    }
  }
}
