/**
  The records the application passes around (src/types/expense.ts): an
  expense as stored and returned by the server, optionally joined with its
  category, and the sums every chart takes over lists of them.
*/
module ExpenseModel {
  import opened Wrappers
  import opened Seqs

  /** A category as joined by the server and as listed in the registry. */
  datatype Category = Category(id: int, name: string, slug: string, icon: string)

  /**
    An expense row. `date` is a calendar date as a day number (day 0 is
    1970-01-01); `createdAt` and `updatedAt` are opaque, ordered timestamps;
    `categories` is the joined category, absent when the row was not joined.
  */
  datatype Expense = Expense(
    id: string,
    userId: string,
    categoryId: int,
    amount: real,
    description: Option<string>,
    date: int,
    createdAt: int,
    updatedAt: int,
    categories: Option<Category>)

  /** `xs.reduce((sum, e) => sum + e.amount, 0)`. */
  function Total(xs: seq<Expense>): real {
    if |xs| == 0 then 0.0 else Total(xs[..|xs| - 1]) + xs[|xs| - 1].amount
  }

  lemma {:induction false} TotalAppend(a: seq<Expense>, b: seq<Expense>)
    ensures Total(a + b) == Total(a) + Total(b)
    decreases |b|
  {
    if |b| == 0 {
      assert a + b == a;
    } else {
      var b' := b[..|b| - 1];
      assert (a + b)[..|a + b| - 1] == a + b';
      assert (a + b)[|a + b| - 1] == b[|b| - 1];
      TotalAppend(a, b');
    }
  }

  /** The sum of a list of positive amounts is positive unless the list is empty. */
  lemma {:induction false} TotalPositive(xs: seq<Expense>)
    requires forall i :: 0 <= i < |xs| ==> xs[i].amount > 0.0
    ensures |xs| > 0 ==> Total(xs) > 0.0
    ensures Total(xs) >= 0.0
  {
    if |xs| > 0 {
      TotalPositive(xs[..|xs| - 1]);
    }
  }

  function InCategory(k: int): Expense -> bool {
    (e: Expense) => e.categoryId == k
  }

  /** The total of the expenses of category `k`. */
  function CategorySum(xs: seq<Expense>, k: int): real {
    Total(Filter(xs, InCategory(k)))
  }

  lemma CategorySumSnoc(xs: seq<Expense>, x: Expense, k: int)
    ensures CategorySum(xs + [x], k) == CategorySum(xs, k) + (if x.categoryId == k then x.amount else 0.0)
  {
    FilterAppend(xs, [x], InCategory(k));
    TotalAppend(Filter(xs, InCategory(k)), Filter([x], InCategory(k)));
    assert [x][..0] == [];
  }

  /** The category totals of `xs` over the ids `ks`, added up. */
  function SumOverCategories(xs: seq<Expense>, ks: seq<int>): real {
    if |ks| == 0 then 0.0 else CategorySum(xs, ks[0]) + SumOverCategories(xs, ks[1..])
  }

  ghost predicate Distinct(ks: seq<int>) {
    forall i, j :: 0 <= i < j < |ks| ==> ks[i] != ks[j]
  }

  lemma {:induction false} SumOverCategoriesSnoc(xs: seq<Expense>, x: Expense, ks: seq<int>)
    requires Distinct(ks)
    ensures SumOverCategories(xs + [x], ks)
         == SumOverCategories(xs, ks) + (if x.categoryId in ks then x.amount else 0.0)
  {
    if |ks| > 0 {
      assert Distinct(ks[1..]) by {
        forall i, j | 0 <= i < j < |ks[1..]| ensures ks[1..][i] != ks[1..][j] {
          assert ks[1..][i] == ks[i + 1] && ks[1..][j] == ks[j + 1];
        }
      }
      SumOverCategoriesSnoc(xs, x, ks[1..]);
      CategorySumSnoc(xs, x, ks[0]);
      assert x.categoryId in ks <==> x.categoryId == ks[0] || x.categoryId in ks[1..];
    }
  }

  /**
    Splitting a list by category loses nothing: when `ks` lists every category
    of `xs` once, the category totals add up to the total of `xs`.
  */
  lemma {:induction false} SumOverCategoriesIsTotal(xs: seq<Expense>, ks: seq<int>)
    requires Distinct(ks)
    requires forall i :: 0 <= i < |xs| ==> xs[i].categoryId in ks
    ensures SumOverCategories(xs, ks) == Total(xs)
  {
    if |xs| == 0 {
      ZeroSums(ks);
    } else {
      var init := xs[..|xs| - 1];
      var x := xs[|xs| - 1];
      assert xs == init + [x];
      SumOverCategoriesIsTotal(init, ks);
      SumOverCategoriesSnoc(init, x, ks);
    }
  }

  lemma {:induction false} ZeroSums(ks: seq<int>)
    ensures SumOverCategories([], ks) == 0.0
  {
    if |ks| > 0 {
      ZeroSums(ks[1..]);
    }
  }
}
