/**
  `Array.prototype.filter`, a stable descending `Array.prototype.sort`, sums
  and the ascending key order of `Object.entries`, the list operations the
  components build on.
*/
module Seqs {

  /** `xs.filter(p)`: the elements satisfying `p`, in their original order. */
  function Filter<T>(xs: seq<T>, p: T -> bool): (r: seq<T>)
    ensures |r| <= |xs|
    ensures forall i :: 0 <= i < |r| ==> r[i] in xs && p(r[i])
    ensures forall i :: 0 <= i < |xs| && p(xs[i]) ==> xs[i] in r
  {
    if |xs| == 0 then []
    else Filter(xs[..|xs| - 1], p) + (if p(xs[|xs| - 1]) then [xs[|xs| - 1]] else [])
  }

  /** Filtering keeps relative order: it distributes over concatenation. */
  lemma {:induction false} FilterAppend<T>(a: seq<T>, b: seq<T>, p: T -> bool)
    ensures Filter(a + b, p) == Filter(a, p) + Filter(b, p)
    decreases |b|
  {
    if |b| == 0 {
      assert a + b == a;
    } else {
      var b' := b[..|b| - 1];
      assert (a + b)[..|a + b| - 1] == a + b';
      assert (a + b)[|a + b| - 1] == b[|b| - 1];
      FilterAppend(a, b', p);
    }
  }

  /** A filter that no element passes leaves nothing. */
  lemma {:induction false} FilterNone<T>(xs: seq<T>, p: T -> bool)
    requires forall i :: 0 <= i < |xs| ==> !p(xs[i])
    ensures Filter(xs, p) == []
  {
    if |xs| > 0 {
      FilterNone(xs[..|xs| - 1], p);
    }
  }

  /** A filter that every element passes changes nothing. */
  lemma {:induction false} FilterKeepsAll<T>(xs: seq<T>, p: T -> bool)
    requires forall i :: 0 <= i < |xs| ==> p(xs[i])
    ensures Filter(xs, p) == xs
  {
    if |xs| > 0 {
      FilterKeepsAll(xs[..|xs| - 1], p);
    }
  }

  // ---------------------------------------------------------------------
  // Stable descending sort: `xs.sort((a, b) => key(b) - key(a))`
  // ---------------------------------------------------------------------

  /**
    Inserts `x` into `s` after every element whose key is at least `key(x)`;
    inserting the elements of a list one by one therefore keeps equal keys in
    their input order, as the (stable) `Array.prototype.sort` does.
  */
  function InsertDesc<T>(x: T, s: seq<T>, key: T -> real): (r: seq<T>)
    ensures multiset(r) == multiset(s) + multiset{x}
    ensures |r| == |s| + 1
  {
    if |s| == 0 then [x]
    else if key(s[0]) >= key(x) then
      assert s == [s[0]] + s[1..];
      [s[0]] + InsertDesc(x, s[1..], key)
    else [x] + s
  }

  function SortDesc<T>(xs: seq<T>, key: T -> real): (r: seq<T>)
    ensures multiset(r) == multiset(xs)
    ensures |r| == |xs|
  {
    if |xs| == 0 then []
    else
      assert xs == xs[..|xs| - 1] + [xs[|xs| - 1]];
      InsertDesc(xs[|xs| - 1], SortDesc(xs[..|xs| - 1], key), key)
  }

  /** Sorting only reorders: an element of the result is an element of the input. */
  lemma {:induction false} SortDescFrom<T>(xs: seq<T>, key: T -> real, x: T) returns (i: int)
    requires x in SortDesc(xs, key)
    ensures 0 <= i < |xs| && xs[i] == x
  {
    assert x in multiset(SortDesc(xs, key));
    i :| 0 <= i < |xs| && xs[i] == x;
  }

  /** Sorting only reorders: an element of the input is an element of the result. */
  lemma {:induction false} SortDescKeeps<T>(xs: seq<T>, key: T -> real, i: int)
    requires 0 <= i < |xs|
    ensures xs[i] in SortDesc(xs, key)
  {
    assert xs[i] in multiset(xs);
  }

  /**
    Ordered by `key` descending; among equal keys, by `rank` ascending.
  */
  ghost predicate OrderedDesc<T>(s: seq<T>, key: T -> real, rank: T -> int) {
    forall i, j :: 0 <= i < j < |s| ==>
      key(s[i]) > key(s[j]) || (key(s[i]) == key(s[j]) && rank(s[i]) <= rank(s[j]))
  }

  /** Whenever two elements have the same key, the earlier has the smaller or equal rank. */
  ghost predicate TiesRanked<T>(s: seq<T>, key: T -> real, rank: T -> int) {
    forall i, j :: 0 <= i < j < |s| && key(s[i]) == key(s[j]) ==> rank(s[i]) <= rank(s[j])
  }

  /** The rank that orders no ties: with it `OrderedDesc` is plain descending order. */
  function Unranked<T>(x: T): int {
    0
  }

  ghost predicate DistinctKeys<T>(s: seq<T>, key: T -> real) {
    forall i, j :: 0 <= i < j < |s| ==> key(s[i]) != key(s[j])
  }

  lemma {:induction false} InsertDescOrdered<T>(x: T, s: seq<T>, key: T -> real, rank: T -> int)
    requires OrderedDesc(s, key, rank)
    requires forall y :: y in s && key(y) == key(x) ==> rank(y) <= rank(x)
    ensures OrderedDesc(InsertDesc(x, s, key), key, rank)
  {
    if |s| > 0 && key(s[0]) >= key(x) {
      var tail := s[1..];
      assert OrderedDesc(tail, key, rank) by {
        forall i, j | 0 <= i < j < |tail|
          ensures key(tail[i]) > key(tail[j]) || (key(tail[i]) == key(tail[j]) && rank(tail[i]) <= rank(tail[j]))
        {
          assert tail[i] == s[i + 1] && tail[j] == s[j + 1];
        }
      }
      InsertDescOrdered(x, tail, key, rank);
      var r := InsertDesc(x, s, key);
      var rt := InsertDesc(x, tail, key);
      assert r == [s[0]] + rt;
      forall j | 1 <= j < |r|
        ensures key(r[0]) > key(r[j]) || (key(r[0]) == key(r[j]) && rank(r[0]) <= rank(r[j]))
      {
        assert r[j] in multiset(rt);
        assert r[j] == x || r[j] in tail;
        if r[j] != x {
          var k :| 0 <= k < |tail| && tail[k] == r[j];
          assert s[k + 1] == r[j];
        }
      }
    }
  }

  /**
    The sort is stable: the result is ordered by key descending, and elements
    with equal keys keep the rank order they had in the input.
  */
  lemma {:induction false} SortDescOrdered<T>(xs: seq<T>, key: T -> real, rank: T -> int)
    requires TiesRanked(xs, key, rank)
    ensures OrderedDesc(SortDesc(xs, key), key, rank)
  {
    if |xs| > 0 {
      var init := xs[..|xs| - 1];
      var x := xs[|xs| - 1];
      assert TiesRanked(init, key, rank) by {
        forall i, j | 0 <= i < j < |init| && key(init[i]) == key(init[j])
          ensures rank(init[i]) <= rank(init[j])
        {
          assert init[i] == xs[i] && init[j] == xs[j];
        }
      }
      SortDescOrdered(init, key, rank);
      var sorted := SortDesc(init, key);
      forall y | y in sorted && key(y) == key(x)
        ensures rank(y) <= rank(x)
      {
        assert y in multiset(init);
        var k :| 0 <= k < |init| && init[k] == y;
        assert xs[k] == y;
      }
      InsertDescOrdered(x, sorted, key, rank);
    }
  }

  lemma {:induction false} InsertDescDistinct<T>(x: T, s: seq<T>, key: T -> real)
    requires DistinctKeys(s, key)
    requires forall y :: y in s ==> key(y) != key(x)
    ensures DistinctKeys(InsertDesc(x, s, key), key)
  {
    var r := InsertDesc(x, s, key);
    if |s| > 0 && key(s[0]) >= key(x) {
      var tail := s[1..];
      assert DistinctKeys(tail, key) by {
        forall i, j | 0 <= i < j < |tail| ensures key(tail[i]) != key(tail[j]) {
          assert tail[i] == s[i + 1] && tail[j] == s[j + 1];
        }
      }
      InsertDescDistinct(x, tail, key);
      var rt := InsertDesc(x, tail, key);
      assert r == [s[0]] + rt;
      forall j | 1 <= j < |r| ensures key(r[0]) != key(r[j]) {
        assert r[j] in multiset(rt);
        if r[j] != x {
          var k :| 0 <= k < |tail| && tail[k] == r[j];
          assert s[k + 1] == r[j];
        }
      }
    } else if |s| > 0 {
      assert r == [x] + s;
      forall i, j | 0 <= i < j < |r| ensures key(r[i]) != key(r[j]) {
        if i > 0 {
          assert r[i] == s[i - 1] && r[j] == s[j - 1];
        } else {
          assert r[j] in s;
        }
      }
    }
  }

  /** Distinct keys stay distinct, so an ordered result is strictly descending. */
  lemma {:induction false} SortDescDistinct<T>(xs: seq<T>, key: T -> real)
    requires DistinctKeys(xs, key)
    ensures DistinctKeys(SortDesc(xs, key), key)
  {
    if |xs| > 0 {
      var init := xs[..|xs| - 1];
      var x := xs[|xs| - 1];
      assert DistinctKeys(init, key) by {
        forall i, j | 0 <= i < j < |init| ensures key(init[i]) != key(init[j]) {
          assert init[i] == xs[i] && init[j] == xs[j];
        }
      }
      SortDescDistinct(init, key);
      var sorted := SortDesc(init, key);
      forall y | y in sorted ensures key(y) != key(x) {
        assert y in multiset(init);
        var k :| 0 <= k < |init| && init[k] == y;
        assert xs[k] == y;
      }
      InsertDescDistinct(x, sorted, key);
    }
  }

  // ---------------------------------------------------------------------
  // Sums: `xs.reduce((sum, x) => sum + f(x), 0)`
  // ---------------------------------------------------------------------

  function SumOf<T>(xs: seq<T>, f: T -> real): real {
    if |xs| == 0 then 0.0 else f(xs[0]) + SumOf(xs[1..], f)
  }

  lemma {:induction false} SumOfAppend<T>(a: seq<T>, b: seq<T>, f: T -> real)
    ensures SumOf(a + b, f) == SumOf(a, f) + SumOf(b, f)
  {
    if |a| == 0 {
      assert a + b == b;
    } else {
      assert (a + b)[0] == a[0];
      assert (a + b)[1..] == a[1..] + b;
      SumOfAppend(a[1..], b, f);
    }
  }

  lemma {:induction false} SumOfInsertDesc<T>(x: T, s: seq<T>, key: T -> real, f: T -> real)
    ensures SumOf(InsertDesc(x, s, key), f) == f(x) + SumOf(s, f)
  {
    if |s| > 0 && key(s[0]) >= key(x) {
      SumOfInsertDesc(x, s[1..], key, f);
    }
  }

  lemma {:induction false} SumOfSnoc<T>(xs: seq<T>, x: T, f: T -> real)
    ensures SumOf(xs + [x], f) == SumOf(xs, f) + f(x)
  {
    SumOfAppend(xs, [x], f);
    assert [x][1..] == [];
  }

  lemma {:induction false} SumOfLast<T>(xs: seq<T>, f: T -> real)
    requires |xs| > 0
    ensures SumOf(xs, f) == SumOf(xs[..|xs| - 1], f) + f(xs[|xs| - 1])
  {
    assert xs == xs[..|xs| - 1] + [xs[|xs| - 1]];
    SumOfSnoc(xs[..|xs| - 1], xs[|xs| - 1], f);
  }

  /** Sorting does not change a sum. */
  lemma {:induction false} SumOfSortDesc<T>(xs: seq<T>, key: T -> real, f: T -> real)
    ensures SumOf(SortDesc(xs, key), f) == SumOf(xs, f)
  {
    if |xs| > 0 {
      var init := xs[..|xs| - 1];
      var x := xs[|xs| - 1];
      var sortedInit := SortDesc(init, key);
      assert SortDesc(xs, key) == InsertDesc(x, sortedInit, key);
      SumOfSortDesc(init, key, f);
      SumOfInsertDesc(x, sortedInit, key, f);
      SumOfLast(xs, f);
    }
  }

  // ---------------------------------------------------------------------
  // Integer keys in ascending order
  // ---------------------------------------------------------------------

  lemma {:induction false} HasLeast(s: set<int>)
    requires s != {}
    ensures exists m :: m in s && forall y :: y in s ==> m <= y
  {
    var m := LeastOf(s);
  }

  lemma {:induction false} LeastOf(s: set<int>) returns (m: int)
    requires s != {}
    ensures m in s && forall y :: y in s ==> m <= y
    decreases |s|
  {
    if forall y :: y !in s {
      assert false;
    }
    var x :| x in s;
    var rest := s - {x};
    if rest == {} {
      m := x;
      forall y | y in s
        ensures m <= y
      {
        assert y !in rest;
      }
    } else {
      var m' := LeastOf(rest);
      m := if x < m' then x else m';
      forall y | y in s
        ensures m <= y
      {
        if y != x {
          assert y in rest;
        }
      }
    }
  }

  /** The smallest element of a non-empty set. */
  function Least(s: set<int>): (m: int)
    requires s != {}
    ensures m in s && forall y :: y in s ==> m <= y
  {
    HasLeast(s);
    var m :| m in s && forall y :: y in s ==> m <= y;
    m
  }

  /** The elements of `s` in ascending order, as `Object.entries` lists integer keys. */
  function AscendingKeys(s: set<int>): (r: seq<int>)
    ensures forall i, j :: 0 <= i < j < |r| ==> r[i] < r[j]
    ensures forall k :: k in r <==> k in s
    decreases |s|
  {
    if s == {} then []
    else
      var m := Least(s);
      var rest := AscendingKeys(s - {m});
      assert forall k :: k in rest ==> m < k;
      [m] + rest
  }
}
