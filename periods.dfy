/**
  The calendar periods the charts bucket by (date-fns `eachDayOfInterval`,
  `eachWeekOfInterval` with Monday as the first day, `eachMonthOfInterval`,
  and the matching `startOf…`/`endOf…`). Dates are day numbers (day 0 is
  1970-01-01, a Thursday); weeks are computed, months are given by an
  abstract calendar. Every period is a run of consecutive days numbered by a
  key: the day itself, the Monday-based week index, or the month number.
*/
module Periods {
  import opened Seqs
  import opened ExpenseModel

  datatype Period = Daily | Weekly | Monthly

  /** `monthOf(d)` numbers the month holding day `d`; `monthStart(m)` is its first day. */
  datatype Calendar = Calendar(monthOf: int -> int, monthStart: int -> int)

  /** Month `m` starts before month `m'`. */
  ghost predicate StartsBefore(cal: Calendar, m: int, m': int) {
    cal.monthStart(m) < cal.monthStart(m')
  }

  /** Day `d` lies between the first day of its month and the first day of the next. */
  ghost predicate InItsMonth(cal: Calendar, d: int) {
    cal.monthStart(cal.monthOf(d)) <= d < cal.monthStart(cal.monthOf(d) + 1)
  }

  /** Months are consecutive runs of days, in order. */
  ghost predicate WellFormed(cal: Calendar) {
    && (forall m, m' :: m < m' ==> StartsBefore(cal, m, m'))
    && (forall d :: InItsMonth(cal, d))
  }

  /** The index of the Monday-start week holding day `d` (week 0 starts on 1970-01-05). */
  function WeekIndex(d: int): int {
    (d - 4) / 7
  }

  /** `startOfWeek(d, { weekStartsOn: 1 })`: the Monday on or before `d`. */
  function StartOfWeek(d: int): (r: int)
    ensures r <= d < r + 7
    ensures WeekIndex(r) == WeekIndex(d)
  {
    7 * WeekIndex(d) + 4
  }

  /** The number of the period holding day `d`. */
  function Key(p: Period, cal: Calendar, d: int): int {
    match p
    case Daily => d
    case Weekly => WeekIndex(d)
    case Monthly => cal.monthOf(d)
  }

  /** The first day of period number `k`. */
  function KeyStart(p: Period, cal: Calendar, k: int): int {
    match p
    case Daily => k
    case Weekly => 7 * k + 4
    case Monthly => cal.monthStart(k)
  }

  /** A run of days, both ends included. */
  datatype Span = Span(first: int, last: int)

  predicate InSpan(d: int, s: Span) {
    s.first <= d <= s.last
  }

  /** The period of an interval date: `startOf…(interval)` to `endOf…(interval)`, in days. */
  function PeriodSpan(p: Period, cal: Calendar, x: int): Span {
    Span(KeyStart(p, cal, Key(p, cal, x)), KeyStart(p, cal, Key(p, cal, x) + 1) - 1)
  }

  /**
    `eachDayOfInterval` / `eachWeekOfInterval` / `eachMonthOfInterval` from
    `lo` to `hi`: the first day of every period from the one holding `lo` to
    the one holding `hi`.
  */
  function IntervalStarts(p: Period, cal: Calendar, lo: int, hi: int): (r: seq<int>)
    ensures |r| == if Key(p, cal, hi) < Key(p, cal, lo) then 0 else Key(p, cal, hi) - Key(p, cal, lo) + 1
  {
    var k0 := Key(p, cal, lo);
    var n := Key(p, cal, hi) - k0 + 1;
    seq(if n < 0 then 0 else n, i => KeyStart(p, cal, k0 + i))
  }

  function Spans(p: Period, cal: Calendar, lo: int, hi: int): seq<Span> {
    var starts := IntervalStarts(p, cal, lo, hi);
    seq(|starts|, i requires 0 <= i < |starts| => PeriodSpan(p, cal, starts[i]))
  }

  // ---------------------------------------------------------------------
  // The key functions number consecutive runs of days
  // ---------------------------------------------------------------------

  lemma KeyBounds(p: Period, cal: Calendar, d: int)
    requires WellFormed(cal)
    ensures KeyStart(p, cal, Key(p, cal, d)) <= d < KeyStart(p, cal, Key(p, cal, d) + 1)
  {
    assert InItsMonth(cal, d);
  }

  lemma KeyStartIncreasing(p: Period, cal: Calendar, a: int, b: int)
    requires WellFormed(cal) && a < b
    ensures KeyStart(p, cal, a) < KeyStart(p, cal, b)
  {
    assert StartsBefore(cal, a, b);
  }

  /** The first day of period `k` lies in period `k`. */
  lemma KeyOfStart(p: Period, cal: Calendar, k: int)
    requires WellFormed(cal)
    ensures Key(p, cal, KeyStart(p, cal, k)) == k
  {
    var d := KeyStart(p, cal, k);
    var k' := Key(p, cal, d);
    KeyBounds(p, cal, d);
    if k' < k {
      if k' + 1 < k {
        KeyStartIncreasing(p, cal, k' + 1, k);
      }
      assert false;
    } else if k' > k {
      KeyStartIncreasing(p, cal, k, k');
      assert false;
    }
  }

  /** A day lies in period `k` exactly when `k` is its key. */
  lemma {:induction false} KeyCharacterized(p: Period, cal: Calendar, d: int, k: int)
    requires WellFormed(cal)
    ensures KeyStart(p, cal, k) <= d < KeyStart(p, cal, k + 1) <==> Key(p, cal, d) == k
  {
    var k' := Key(p, cal, d);
    KeyBounds(p, cal, d);
    if KeyStart(p, cal, k) <= d < KeyStart(p, cal, k + 1) && k' != k {
      if k' < k {
        if k' + 1 < k {
          KeyStartIncreasing(p, cal, k' + 1, k);
        }
      } else {
        if k + 1 < k' {
          KeyStartIncreasing(p, cal, k + 1, k');
        }
      }
      assert false;
    }
  }

  /** Later days are in the same or a later period. */
  lemma KeyMonotone(p: Period, cal: Calendar, d: int, e: int)
    requires WellFormed(cal) && d <= e
    ensures Key(p, cal, d) <= Key(p, cal, e)
  {
    KeyBounds(p, cal, d);
    KeyBounds(p, cal, e);
    if Key(p, cal, e) < Key(p, cal, d) {
      if Key(p, cal, e) + 1 < Key(p, cal, d) {
        KeyStartIncreasing(p, cal, Key(p, cal, e) + 1, Key(p, cal, d));
      }
      assert false;
    }
  }

  /** A day lies in the period of interval date `x` exactly when the two share a period. */
  lemma PeriodSpanIsPeriod(p: Period, cal: Calendar, x: int, d: int)
    requires WellFormed(cal)
    ensures InSpan(d, PeriodSpan(p, cal, x)) <==> Key(p, cal, d) == Key(p, cal, x)
  {
    KeyCharacterized(p, cal, d, Key(p, cal, x));
  }

  // ---------------------------------------------------------------------
  // The spans between the first and the last date
  // ---------------------------------------------------------------------

  /** Non-empty spans, each starting the day after the previous one ends. */
  ghost predicate Contiguous(spans: seq<Span>) {
    && (forall i :: 0 <= i < |spans| ==> spans[i].first <= spans[i].last)
    && (forall i :: 0 <= i < |spans| - 1 ==> spans[i + 1].first == spans[i].last + 1)
  }

  /** The `i`-th span is the whole of period number `Key(lo) + i`. */
  lemma SpanAt(p: Period, cal: Calendar, lo: int, hi: int, i: int)
    requires WellFormed(cal) && 0 <= i < |Spans(p, cal, lo, hi)|
    ensures var k := Key(p, cal, lo) + i;
      Spans(p, cal, lo, hi)[i] == Span(KeyStart(p, cal, k), KeyStart(p, cal, k + 1) - 1)
    ensures Spans(p, cal, lo, hi)[i].first <= Spans(p, cal, lo, hi)[i].last
  {
    var k := Key(p, cal, lo) + i;
    var x := IntervalStarts(p, cal, lo, hi)[i];
    assert x == KeyStart(p, cal, k);
    assert Spans(p, cal, lo, hi)[i] == PeriodSpan(p, cal, x);
    KeyOfStart(p, cal, k);
    assert Key(p, cal, x) == k;
    KeyStartIncreasing(p, cal, k, k + 1);
  }

  /**
    The spans from `lo` to `hi` are one per period, in chronological order
    with no gap: the first holds `lo`, the last holds `hi`, and the `i`-th is
    the whole period `Key(lo) + i`.
  */
  lemma SpansCover(p: Period, cal: Calendar, lo: int, hi: int)
    requires WellFormed(cal) && lo <= hi
    ensures var s := Spans(p, cal, lo, hi);
      && Key(p, cal, lo) <= Key(p, cal, hi)
      && |s| == Key(p, cal, hi) - Key(p, cal, lo) + 1
      && Contiguous(s)
      && InSpan(lo, s[0]) && InSpan(hi, s[|s| - 1])
      && (forall i :: 0 <= i < |s| ==> Key(p, cal, s[i].first) == Key(p, cal, lo) + i)
  {
    SpansContiguous(p, cal, lo, hi);
    SpansKeys(p, cal, lo, hi);
    SpansEnds(p, cal, lo, hi);
  }

  lemma SpansEnds(p: Period, cal: Calendar, lo: int, hi: int)
    requires WellFormed(cal) && lo <= hi
    ensures Key(p, cal, lo) <= Key(p, cal, hi)
    ensures |Spans(p, cal, lo, hi)| == Key(p, cal, hi) - Key(p, cal, lo) + 1
    ensures InSpan(lo, Spans(p, cal, lo, hi)[0])
    ensures InSpan(hi, Spans(p, cal, lo, hi)[|Spans(p, cal, lo, hi)| - 1])
  {
    KeyMonotone(p, cal, lo, hi);
    var s := Spans(p, cal, lo, hi);
    assert |s| == Key(p, cal, hi) - Key(p, cal, lo) + 1;
    SpanAt(p, cal, lo, hi, 0);
    KeyBounds(p, cal, lo);
    assert s[0].first <= lo <= s[0].last;
    LastSpan(p, cal, lo, hi);
  }

  lemma LastSpan(p: Period, cal: Calendar, lo: int, hi: int)
    requires WellFormed(cal) && Key(p, cal, lo) <= Key(p, cal, hi)
    ensures |Spans(p, cal, lo, hi)| > 0
    ensures InSpan(hi, Spans(p, cal, lo, hi)[|Spans(p, cal, lo, hi)| - 1])
  {
    var s := Spans(p, cal, lo, hi);
    var n := |s| - 1;
    var kh := Key(p, cal, hi);
    assert Key(p, cal, lo) + n == kh;
    SpanAt(p, cal, lo, hi, n);
    assert s[n] == Span(KeyStart(p, cal, kh), KeyStart(p, cal, kh + 1) - 1);
    KeyBounds(p, cal, hi);
  }

  lemma SpansContiguous(p: Period, cal: Calendar, lo: int, hi: int)
    requires WellFormed(cal)
    ensures Contiguous(Spans(p, cal, lo, hi))
  {
    var s := Spans(p, cal, lo, hi);
    forall i | 0 <= i < |s|
      ensures s[i].first <= s[i].last
    {
      SpanAt(p, cal, lo, hi, i);
    }
    forall i | 0 <= i < |s| - 1
      ensures s[i + 1].first == s[i].last + 1
    {
      SpanNext(p, cal, lo, hi, i);
    }
  }

  lemma SpanNext(p: Period, cal: Calendar, lo: int, hi: int, i: int)
    requires WellFormed(cal) && 0 <= i < |Spans(p, cal, lo, hi)| - 1
    ensures Spans(p, cal, lo, hi)[i + 1].first == Spans(p, cal, lo, hi)[i].last + 1
  {
    SpanAt(p, cal, lo, hi, i);
    SpanAt(p, cal, lo, hi, i + 1);
  }

  lemma SpansKeys(p: Period, cal: Calendar, lo: int, hi: int)
    requires WellFormed(cal)
    ensures var s := Spans(p, cal, lo, hi);
      forall i :: 0 <= i < |s| ==> Key(p, cal, s[i].first) == Key(p, cal, lo) + i
  {
    var s := Spans(p, cal, lo, hi);
    forall i | 0 <= i < |s|
      ensures Key(p, cal, s[i].first) == Key(p, cal, lo) + i
    {
      SpanAt(p, cal, lo, hi, i);
      KeyOfStart(p, cal, Key(p, cal, lo) + i);
    }
  }

  lemma {:induction false} ContiguousOrdered(spans: seq<Span>, i: int, j: int)
    requires Contiguous(spans) && 0 <= i < j < |spans|
    ensures spans[i].last < spans[j].first
    decreases j - i
  {
    if i + 1 < j {
      ContiguousOrdered(spans, i + 1, j);
    }
  }

  /** Between the first day of contiguous spans and the last, every day lies in exactly one of them. */
  lemma {:induction false} ContiguousPartition(spans: seq<Span>, d: int) returns (i: int)
    requires Contiguous(spans) && |spans| > 0
    requires spans[0].first <= d <= spans[|spans| - 1].last
    ensures 0 <= i < |spans| && InSpan(d, spans[i])
    ensures forall j :: 0 <= j < |spans| && InSpan(d, spans[j]) ==> j == i
  {
    if d <= spans[0].last {
      i := 0;
    } else {
      var i' := ContiguousPartition(spans[1..], d);
      i := i' + 1;
    }
    forall j | 0 <= j < |spans| && InSpan(d, spans[j])
      ensures j == i
    {
      if j < i {
        ContiguousOrdered(spans, j, i);
      } else if i < j {
        ContiguousOrdered(spans, i, j);
      }
    }
  }

  // ---------------------------------------------------------------------
  // Instants (milliseconds) and the inclusive windows the charts filter by
  // ---------------------------------------------------------------------

  /** 00:00:00.000 of day `d`, in milliseconds since the epoch. */
  function DayStart(d: int): int {
    d * 86400000
  }

  /** `hour`:00:00.000 of day `d`. */
  function HourStart(d: int, hour: int): int {
    d * 86400000 + hour * 3600000
  }

  /** From `periodStart` to `periodEnd`, both included, in milliseconds. */
  datatype Window = Window(start: int, end: int)

  /** `new Date(e.date)`: a date-only string is the first instant of its day. */
  function Instant(e: Expense): int {
    DayStart(e.date)
  }

  predicate Holds(w: Window, e: Expense) {
    w.start <= Instant(e) <= w.end
  }

  /** The filter callback `e => periodStart <= new Date(e.date) <= periodEnd`. */
  function InWindow(w: Window): Expense -> bool {
    (e: Expense) => Holds(w, e)
  }

  /** A span of days as an instant window: its first day at 00:00:00.000 to its last day at 23:59:59.999. */
  function DayWindow(s: Span): Window {
    Window(DayStart(s.first), DayStart(s.last + 1) - 1)
  }

  /** An expense falls in a day window exactly when its date falls in the span. */
  lemma DayWindowHolds(s: Span, e: Expense)
    ensures Holds(DayWindow(s), e) <==> InSpan(e.date, s)
  {
  }

  function DayWindows(p: Period, cal: Calendar, lo: int, hi: int): (r: seq<Window>)
    ensures |r| == |Spans(p, cal, lo, hi)|
  {
    var s := Spans(p, cal, lo, hi);
    seq(|s|, i requires 0 <= i < |s| => DayWindow(s[i]))
  }

  // ---------------------------------------------------------------------
  // The first and the last expense date (`Math.min` / `Math.max`)
  // ---------------------------------------------------------------------

  function MinDate(xs: seq<Expense>): (m: int)
    requires |xs| > 0
    ensures forall i :: 0 <= i < |xs| ==> m <= xs[i].date
    ensures exists i :: 0 <= i < |xs| && xs[i].date == m
  {
    if |xs| == 1 then xs[0].date
    else
      var m := MinDate(xs[..|xs| - 1]);
      if xs[|xs| - 1].date < m then xs[|xs| - 1].date else m
  }

  function MaxDate(xs: seq<Expense>): (m: int)
    requires |xs| > 0
    ensures forall i :: 0 <= i < |xs| ==> xs[i].date <= m
    ensures exists i :: 0 <= i < |xs| && xs[i].date == m
  {
    if |xs| == 1 then xs[0].date
    else
      var m := MaxDate(xs[..|xs| - 1]);
      if xs[|xs| - 1].date > m then xs[|xs| - 1].date else m
  }

  /**
    Every expense of a non-empty list falls in exactly one of the day windows
    between its first and its last date.
  */
  lemma WindowsPartition(p: Period, cal: Calendar, xs: seq<Expense>, e: Expense) returns (i: int)
    requires WellFormed(cal) && |xs| > 0 && e in xs
    ensures OnlyIn(DayWindows(p, cal, MinDate(xs), MaxDate(xs)), e, i)
  {
    var lo, hi := MinDate(xs), MaxDate(xs);
    SpansCover(p, cal, lo, hi);
    var s := Spans(p, cal, lo, hi);
    var ws := DayWindows(p, cal, lo, hi);
    i := ContiguousPartition(s, e.date);
    forall j | 0 <= j < |ws|
      ensures Holds(ws[j], e) <==> InSpan(e.date, s[j])
    {
      DayWindowHolds(s[j], e);
    }
  }

  // ---------------------------------------------------------------------
  // Sums over windows that partition the expenses
  // ---------------------------------------------------------------------

  /** `e` lies in the `i`-th window and in no other. */
  ghost predicate OnlyIn(ws: seq<Window>, e: Expense, i: int) {
    0 <= i < |ws| && Holds(ws[i], e) && forall j :: 0 <= j < |ws| && Holds(ws[j], e) ==> j == i
  }

  ghost predicate InExactlyOne(ws: seq<Window>, e: Expense) {
    exists i :: OnlyIn(ws, e, i)
  }

  /** Each expense lies in exactly one of the windows. */
  ghost predicate Partitions(ws: seq<Window>, xs: seq<Expense>) {
    forall k :: 0 <= k < |xs| ==> InExactlyOne(ws, xs[k])
  }

  /** The window totals, added up. */
  function SumOfWindowTotals(xs: seq<Expense>, ws: seq<Window>): real {
    if |ws| == 0 then 0.0 else Total(Filter(xs, InWindow(ws[0]))) + SumOfWindowTotals(xs, ws[1..])
  }

  /** The window counts, added up. */
  function SumOfWindowCounts(xs: seq<Expense>, ws: seq<Window>): int {
    if |ws| == 0 then 0 else |Filter(xs, InWindow(ws[0]))| + SumOfWindowCounts(xs, ws[1..])
  }

  /** `x.amount` once for every window holding `x`. */
  function HitAmount(x: Expense, ws: seq<Window>): real {
    if |ws| == 0 then 0.0 else (if Holds(ws[0], x) then x.amount else 0.0) + HitAmount(x, ws[1..])
  }

  /** The number of windows holding `x`. */
  function HitCount(x: Expense, ws: seq<Window>): int {
    if |ws| == 0 then 0 else (if Holds(ws[0], x) then 1 else 0) + HitCount(x, ws[1..])
  }

  lemma {:induction false} WindowSumsSnoc(xs: seq<Expense>, x: Expense, ws: seq<Window>)
    ensures SumOfWindowTotals(xs + [x], ws) == SumOfWindowTotals(xs, ws) + HitAmount(x, ws)
    ensures SumOfWindowCounts(xs + [x], ws) == SumOfWindowCounts(xs, ws) + HitCount(x, ws)
  {
    if |ws| > 0 {
      var p := InWindow(ws[0]);
      FilterAppend(xs, [x], p);
      assert [x][..0] == [];
      TotalAppend(Filter(xs, p), Filter([x], p));
      WindowSumsSnoc(xs, x, ws[1..]);
    }
  }

  lemma {:induction false} HitOnce(x: Expense, ws: seq<Window>, i: int)
    requires 0 <= i < |ws| && Holds(ws[i], x)
    requires forall j :: 0 <= j < |ws| && Holds(ws[j], x) ==> j == i
    ensures HitAmount(x, ws) == x.amount && HitCount(x, ws) == 1
  {
    if i == 0 {
      HitNone(x, ws[1..]);
    } else {
      HitOnce(x, ws[1..], i - 1);
    }
  }

  lemma {:induction false} HitNone(x: Expense, ws: seq<Window>)
    requires forall j :: 0 <= j < |ws| ==> !Holds(ws[j], x)
    ensures HitAmount(x, ws) == 0.0 && HitCount(x, ws) == 0
  {
    if |ws| > 0 {
      HitNone(x, ws[1..]);
    }
  }

  /** Over windows that partition the expenses, the window totals add up to the total and the counts to the length. */
  lemma {:induction false} PartitionSums(xs: seq<Expense>, ws: seq<Window>)
    requires Partitions(ws, xs)
    ensures SumOfWindowTotals(xs, ws) == Total(xs)
    ensures SumOfWindowCounts(xs, ws) == |xs|
  {
    if |xs| == 0 {
      EmptySums(ws);
    } else {
      var xs', x := xs[..|xs| - 1], xs[|xs| - 1];
      assert xs == xs' + [x];
      assert Partitions(ws, xs') by {
        forall k | 0 <= k < |xs'|
          ensures InExactlyOne(ws, xs'[k])
        {
          assert xs'[k] == xs[k];
        }
      }
      PartitionSums(xs', ws);
      assert InExactlyOne(ws, xs[|xs| - 1]);
      var i :| OnlyIn(ws, x, i);
      HitOnce(x, ws, i);
      WindowSumsSnoc(xs', x, ws);
    }
  }

  lemma {:induction false} EmptySums(ws: seq<Window>)
    ensures SumOfWindowTotals([], ws) == 0.0 && SumOfWindowCounts([], ws) == 0
  {
    if |ws| > 0 {
      EmptySums(ws[1..]);
    }
  }

  /** The day windows between the first and the last date partition the expenses. */
  lemma DayWindowsPartition(p: Period, cal: Calendar, xs: seq<Expense>)
    requires WellFormed(cal) && |xs| > 0
    ensures Partitions(DayWindows(p, cal, MinDate(xs), MaxDate(xs)), xs)
  {
    var ws := DayWindows(p, cal, MinDate(xs), MaxDate(xs));
    forall k | 0 <= k < |xs|
      ensures InExactlyOne(ws, xs[k])
    {
      var i := WindowsPartition(p, cal, xs, xs[k]);
    }
  }
}
