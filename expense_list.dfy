/**
  The expense history list (src/components/expense-list.tsx): the expenses
  grouped by their date key, the keys shown newest first, and each row's
  category taken from the join, else from the registry, else a placeholder.
  The `yyyy-MM-dd` key of a date is one-to-one, so the model keys groups by
  the day number itself.
*/
module ExpenseList {
  import opened Wrappers
  import opened Seqs
  import opened ExpenseModel
  import opened Categories

  function OnDate(d: int): Expense -> bool {
    (e: Expense) => e.date == d
  }

  /** The expenses of one date, in input order. */
  function Group(xs: seq<Expense>, d: int): seq<Expense> {
    Filter(xs, OnDate(d))
  }

  /**
    The keys of the grouping object in the order `Object.keys` lists them:
    string keys come in insertion order, so each date appears where its
    first expense is.
  */
  function DateKeys(xs: seq<Expense>): seq<int> {
    if |xs| == 0 then []
    else
      var keys := DateKeys(xs[..|xs| - 1]);
      if xs[|xs| - 1].date in keys then keys else keys + [xs[|xs| - 1].date]
  }

  predicate HasDate(xs: seq<Expense>, d: int) {
    exists i :: 0 <= i < |xs| && xs[i].date == d
  }

  /** A date is a key exactly when some expense has it. */
  lemma {:induction false} DateKeyMember(xs: seq<Expense>, d: int)
    ensures d in DateKeys(xs) <==> HasDate(xs, d)
  {
    if |xs| > 0 {
      var init := xs[..|xs| - 1];
      DateKeyMember(init, d);
      if HasDate(init, d) {
        var i :| 0 <= i < |init| && init[i].date == d;
        assert xs[i] == init[i];
      }
      if HasDate(xs, d) && d != xs[|xs| - 1].date {
        var i :| 0 <= i < |xs| && xs[i].date == d;
        assert init[i] == xs[i];
      }
    }
  }

  /** No date is a key twice. */
  lemma {:induction false} DateKeysDistinct(xs: seq<Expense>)
    ensures Distinct(DateKeys(xs))
  {
    if |xs| > 0 {
      DateKeysDistinct(xs[..|xs| - 1]);
    }
  }

  lemma {:induction false} GroupSnoc(xs: seq<Expense>, x: Expense, d: int)
    ensures Group(xs + [x], d) == Group(xs, d) + (if x.date == d then [x] else [])
  {
    FilterAppend(xs, [x], OnDate(d));
    assert [x][..0] == [];
  }

  lemma {:induction false} GroupOfAbsentDate(xs: seq<Expense>, d: int)
    requires !HasDate(xs, d)
    ensures Group(xs, d) == []
  {
    FilterNone(xs, OnDate(d));
  }

  /**
    The `reduce` building `groupedExpenses` in place: a date's array is
    created on its first expense (an existing array is never falsy) and each
    expense is pushed onto the array of its date.
  */
  method GroupByDate(expenses: seq<Expense>) returns (keys: seq<int>, groups: map<int, seq<Expense>>)
    ensures keys == DateKeys(expenses)
    ensures forall d :: d in groups <==> d in keys
    ensures forall d :: d in groups ==> groups[d] == Group(expenses, d)
  {
    keys := [];
    groups := map[];
    for i := 0 to |expenses|
      invariant keys == DateKeys(expenses[..i])
      invariant forall d :: d in groups <==> d in keys
      invariant forall d :: d in groups ==> groups[d] == Group(expenses[..i], d)
    {
      var expense := expenses[i];
      var date := expense.date;
      assert expenses[..i + 1] == expenses[..i] + [expense];
      assert expenses[..i + 1][..i] == expenses[..i];
      forall d
        ensures Group(expenses[..i + 1], d) == Group(expenses[..i], d) + (if date == d then [expense] else [])
      {
        GroupSnoc(expenses[..i], expense, d);
      }
      if date !in groups {
        DateKeyMember(expenses[..i], date);
        GroupOfAbsentDate(expenses[..i], date);
        groups := groups[date := []];
        keys := keys + [date];
      }
      groups := groups[date := groups[date] + [expense]];
    }
    assert expenses[..|expenses|] == expenses;
  }

  function AsReal(d: int): real {
    d as real
  }

  /** `Object.keys(groupedExpenses).sort((a, b) => time(b) - time(a))`. */
  function SortedDates(xs: seq<Expense>): seq<int> {
    SortDesc(DateKeys(xs), AsReal)
  }

  /** What the list renders: the empty state, or the date groups in display order. */
  datatype ListView = EmptyState | DateGroups(dates: seq<int>, groups: map<int, seq<Expense>>)

  method Render(expenses: seq<Expense>) returns (view: ListView)
    ensures view.EmptyState? <==> expenses == []
    ensures view.DateGroups? ==>
      && view.dates == SortedDates(expenses)
      && (forall d :: d in view.groups <==> d in view.dates)
      && (forall d :: d in view.groups ==> view.groups[d] == Group(expenses, d))
  {
    if |expenses| == 0 {
      return EmptyState;
    }
    var keys, groupedExpenses := GroupByDate(expenses);
    var sortedDates := SortDesc(keys, AsReal);
    assert forall d :: d in sortedDates <==> d in multiset(keys);
    view := DateGroups(sortedDates, groupedExpenses);
  }

  // ---------------------------------------------------------------------
  // Properties
  // ---------------------------------------------------------------------

  /** Every expense is in the group of its own date, and a group holds only expenses of its date. */
  lemma {:induction false} GroupsByOwnDate(xs: seq<Expense>, d: int)
    ensures forall i :: 0 <= i < |xs| && xs[i].date == d ==> xs[i] in Group(xs, d)
    ensures forall e :: e in Group(xs, d) ==> e in xs && e.date == d
  {
  }

  /** The shown dates are the dates of the expenses, each once, strictly newest first. */
  lemma {:induction false} SortedDatesDescending(xs: seq<Expense>)
    ensures forall d :: d in SortedDates(xs) <==> HasDate(xs, d)
    ensures forall i, j :: 0 <= i < j < |SortedDates(xs)| ==> SortedDates(xs)[i] > SortedDates(xs)[j]
  {
    var keys := DateKeys(xs);
    var sorted := SortedDates(xs);
    forall d
      ensures d in sorted <==> HasDate(xs, d)
    {
      DateKeyMember(xs, d);
      assert d in sorted <==> d in multiset(keys);
    }
    DateKeysDistinct(xs);
    SortDescOrdered(keys, AsReal, Unranked);
    SortDescDistinct(keys, AsReal);
    forall i, j | 0 <= i < j < |sorted|
      ensures sorted[i] > sorted[j]
    {
      assert AsReal(sorted[i]) != AsReal(sorted[j]);
    }
  }

  /** The number of rows of the groups of `keys`. */
  function GroupCount(xs: seq<Expense>, keys: seq<int>): int {
    if |keys| == 0 then 0 else |Group(xs, keys[0])| + GroupCount(xs, keys[1..])
  }

  lemma {:induction false} GroupCountAppendKey(xs: seq<Expense>, keys: seq<int>, d: int)
    ensures GroupCount(xs, keys + [d]) == GroupCount(xs, keys) + |Group(xs, d)|
  {
    if |keys| == 0 {
      assert [d][1..] == [];
    } else {
      assert (keys + [d])[1..] == keys[1..] + [d];
      GroupCountAppendKey(xs, keys[1..], d);
    }
  }

  lemma {:induction false} GroupCountSnoc(xs: seq<Expense>, x: Expense, keys: seq<int>)
    requires Distinct(keys)
    ensures GroupCount(xs + [x], keys) == GroupCount(xs, keys) + (if x.date in keys then 1 else 0)
  {
    if |keys| > 0 {
      assert Distinct(keys[1..]) by {
        forall i, j | 0 <= i < j < |keys[1..]|
          ensures keys[1..][i] != keys[1..][j]
        {
          assert keys[1..][i] == keys[i + 1] && keys[1..][j] == keys[j + 1];
        }
      }
      GroupCountSnoc(xs, x, keys[1..]);
      GroupSnoc(xs, x, keys[0]);
      assert x.date in keys <==> x.date == keys[0] || x.date in keys[1..];
    }
  }

  /** The groups of all the dates hold every expense once: their sizes add up to the input length. */
  lemma {:induction false} GroupCountAll(xs: seq<Expense>)
    ensures GroupCount(xs, DateKeys(xs)) == |xs|
  {
    if |xs| > 0 {
      var init := xs[..|xs| - 1];
      var x := xs[|xs| - 1];
      var keys := DateKeys(init);
      assert xs == init + [x];
      GroupCountAll(init);
      DateKeysDistinct(init);
      GroupCountSnoc(init, x, keys);
      if x.date !in keys {
        DateKeyMember(init, x.date);
        GroupOfAbsentDate(init, x.date);
        GroupSnoc(init, x, x.date);
        GroupCountAppendKey(xs, keys, x.date);
      }
    }
  }

  lemma {:induction false} GroupCountAsSum(xs: seq<Expense>, keys: seq<int>)
    ensures GroupCount(xs, keys) as real == SumOf(keys, (d: int) => |Group(xs, d)| as real)
  {
    if |keys| > 0 {
      GroupCountAsSum(xs, keys[1..]);
    }
  }

  /** The rows shown, group by group in display order, are as many as the expenses. */
  lemma {:induction false} RowsShown(xs: seq<Expense>)
    ensures GroupCount(xs, SortedDates(xs)) == |xs|
  {
    var size := (d: int) => |Group(xs, d)| as real;
    GroupCountAll(xs);
    GroupCountAsSum(xs, DateKeys(xs));
    GroupCountAsSum(xs, SortedDates(xs));
    SumOfSortDesc(DateKeys(xs), AsReal, size);
  }

  /** No expenses, no groups. */
  lemma {:induction false} NoExpensesNoGroups()
    ensures DateKeys([]) == [] && SortedDates([]) == []
  {
  }

  // ---------------------------------------------------------------------
  // The category shown on a row
  // ---------------------------------------------------------------------

  /** `expense.categories || getCategoryById(expense.category_id)`. */
  function CategoryShown(e: Expense): Option<Category> {
    if e.categories.Some? then e.categories else GetCategoryById(e.categoryId)
  }

  /** `category?.icon || '💰'`. */
  function IconShown(e: Expense): string {
    match CategoryShown(e)
    case Some(c) => if c.icon != "" then c.icon else "💰"
    case None => "💰"
  }

  /** `category?.name || 'その他'`. */
  function NameShown(e: Expense): string {
    match CategoryShown(e)
    case Some(c) => if c.name != "" then c.name else "その他"
    case None => "その他"
  }

  /**
    The joined category wins; without it a known id shows its registry
    record, and an unknown id shows the placeholders. Something is always shown.
  */
  lemma {:induction false} CategoryFallback(e: Expense)
    ensures e.categories.Some? && e.categories.value.icon != "" ==> IconShown(e) == e.categories.value.icon
    ensures e.categories.Some? && e.categories.value.name != "" ==> NameShown(e) == e.categories.value.name
    ensures e.categories.None? && 1 <= e.categoryId <= 9 ==>
      IconShown(e) == Registry[e.categoryId - 1].icon && NameShown(e) == Registry[e.categoryId - 1].name
    ensures e.categories.None? && !(1 <= e.categoryId <= 9) ==> IconShown(e) == "💰" && NameShown(e) == "その他"
    ensures IconShown(e) != "" && NameShown(e) != ""
  {
    if e.categories.None? && 1 <= e.categoryId <= 9 {
      var c := Registry[e.categoryId - 1];
      assert c.icon != "" && c.name != "" by {
        RegistryShape();
      }
    }
  }
}
