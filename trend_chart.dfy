/**
  The expense trend chart (src/components/charts/expense-trend-chart.tsx):
  one point per period from the first to the last expense date, with the sum
  and the number of the expenses inside each period's inclusive window; a
  period without expenses keeps its point with amount 0. With daily
  granularity and the `today` range the periods are the 24 hours of the first
  expense date. The y axis ends at the next multiple of 10000.
*/
module TrendChart {
  import opened Seqs
  import opened JsNumbers
  import opened ExpenseModel
  import opened Periods

  /** The optional `dateRange` prop; `Unset` when it is not given. */
  datatype DateRange = Today | Week | Month | Custom | Unset

  /** One chart point: the interval's first instant, the amount and the count. */
  datatype TrendPoint = TrendPoint(interval: int, amount: real, count: nat)

  /**
    The `for` loop collecting the hours of the first date: a copy of it with
    the time set to `hour`:00:00.000 for each hour 0 to 23.
  */
  method HourlyIntervals(minDay: int) returns (hours: seq<int>)
    ensures |hours| == 24
    ensures forall h :: 0 <= h < 24 ==> hours[h] == HourStart(minDay, h)
  {
    hours := [];
    for hour := 0 to 24
      invariant |hours| == hour
      invariant forall h :: 0 <= h < hour ==> hours[h] == HourStart(minDay, h)
    {
      hours := hours + [HourStart(minDay, hour)];
    }
  }

  /** The window of an hour: from its start to `setHours(h, 59, 59, 999)`. */
  function HourWindow(t: int): Window {
    Window(t, t + 3599999)
  }

  function HourWindows(day: int): (r: seq<Window>)
    ensures |r| == 24
  {
    seq(24, h => HourWindow(HourStart(day, h)))
  }

  predicate Hourly(p: Period, range: DateRange) {
    p == Daily && range == Today
  }

  function TrendWindows(xs: seq<Expense>, p: Period, range: DateRange, cal: Calendar): seq<Window>
    requires |xs| > 0
  {
    if Hourly(p, range) then HourWindows(MinDate(xs))
    else DayWindows(p, cal, MinDate(xs), MaxDate(xs))
  }

  /** The point of one window: `periodExpenses` summed and counted. */
  function Point(w: Window, xs: seq<Expense>): TrendPoint {
    var inside := Filter(xs, InWindow(w));
    TrendPoint(w.start, Total(inside), |inside|)
  }

  function Points(ws: seq<Window>, xs: seq<Expense>): (r: seq<TrendPoint>)
    ensures |r| == |ws|
    ensures forall i :: 0 <= i < |ws| ==> r[i] == Point(ws[i], xs)
  {
    if |ws| == 0 then [] else [Point(ws[0], xs)] + Points(ws[1..], xs)
  }

  /** `generateChartData`: no points for no expenses. */
  function TrendData(xs: seq<Expense>, p: Period, range: DateRange, cal: Calendar): seq<TrendPoint> {
    if |xs| == 0 then [] else Points(TrendWindows(xs, p, range, cal), xs)
  }

  /** `generateChartData` as the component runs it: the switch choosing the intervals, then one point per interval. */
  method GenerateChartData(xs: seq<Expense>, p: Period, range: DateRange, cal: Calendar) returns (data: seq<TrendPoint>)
    ensures data == TrendData(xs, p, range, cal)
  {
    if |xs| == 0 {
      return [];
    }
    var lo, hi := MinDate(xs), MaxDate(xs);
    var windows: seq<Window>;
    match p {
      case Daily =>
        windows := DayWindows(Daily, cal, lo, hi);
        if range == Today {
          var hours := HourlyIntervals(lo);
          windows := seq(24, h requires 0 <= h < 24 => HourWindow(hours[h]));
          assert windows == HourWindows(lo) by {
            forall h | 0 <= h < 24
              ensures windows[h] == HourWindows(lo)[h]
            {
            }
          }
        }
      case Weekly =>
        windows := DayWindows(Weekly, cal, lo, hi);
      case Monthly =>
        windows := DayWindows(Monthly, cal, lo, hi);
    }
    data := Points(windows, xs);
  }

  // ---------------------------------------------------------------------
  // Properties
  // ---------------------------------------------------------------------

  function SumAmounts(d: seq<TrendPoint>): real {
    if |d| == 0 then 0.0 else d[0].amount + SumAmounts(d[1..])
  }

  function SumCounts(d: seq<TrendPoint>): int {
    if |d| == 0 then 0 else d[0].count + SumCounts(d[1..])
  }

  lemma {:induction false} PointSums(ws: seq<Window>, xs: seq<Expense>)
    ensures SumAmounts(Points(ws, xs)) == SumOfWindowTotals(xs, ws)
    ensures SumCounts(Points(ws, xs)) == SumOfWindowCounts(xs, ws)
  {
    if |ws| > 0 {
      assert Points(ws, xs)[1..] == Points(ws[1..], xs);
      PointSums(ws[1..], xs);
    }
  }

  /**
    Outside the hourly view the points are those of the day windows from the
    first expense date to the last.
  */
  lemma TrendUsesPeriods(xs: seq<Expense>, p: Period, range: DateRange, cal: Calendar)
    requires |xs| > 0 && !Hourly(p, range)
    ensures TrendData(xs, p, range, cal) == Points(DayWindows(p, cal, MinDate(xs), MaxDate(xs)), xs)
  {
  }

  /**
    Between two dates there is one point per day, Monday-start week or
    month, empty periods included; the `i`-th point starts at the first day
    of the `i`-th period.
  */
  lemma PeriodPoints(p: Period, cal: Calendar, lo: int, hi: int, xs: seq<Expense>)
    requires WellFormed(cal) && lo <= hi
    ensures |Points(DayWindows(p, cal, lo, hi), xs)| == Key(p, cal, hi) - Key(p, cal, lo) + 1
    ensures forall i :: 0 <= i < |Points(DayWindows(p, cal, lo, hi), xs)| ==>
      Points(DayWindows(p, cal, lo, hi), xs)[i].interval == DayStart(KeyStart(p, cal, Key(p, cal, lo) + i))
  {
    SpansEnds(p, cal, lo, hi);
    forall i | 0 <= i < |DayWindows(p, cal, lo, hi)|
      ensures Points(DayWindows(p, cal, lo, hi), xs)[i].interval == DayStart(KeyStart(p, cal, Key(p, cal, lo) + i))
    {
      SpanAt(p, cal, lo, hi, i);
    }
  }

  /**
    Outside the hourly view every expense is counted in exactly one point:
    the amounts add up to the total and the counts to the number of expenses.
  */
  lemma TrendSums(xs: seq<Expense>, p: Period, range: DateRange, cal: Calendar)
    requires WellFormed(cal) && !Hourly(p, range)
    ensures SumAmounts(TrendData(xs, p, range, cal)) == Total(xs)
    ensures SumCounts(TrendData(xs, p, range, cal)) == |xs|
  {
    if |xs| > 0 {
      var ws := DayWindows(p, cal, MinDate(xs), MaxDate(xs));
      DayWindowsPartition(p, cal, xs);
      PartitionSums(xs, ws);
      PointSums(ws, xs);
    }
  }

  /**
    The hourly view has 24 points, one per hour of the first expense date.
    A date-only expense falls at 00:00, so the first hour holds exactly the
    expenses of that day and the other 23 are empty.
  */
  lemma HourlyPoints(xs: seq<Expense>, p: Period, range: DateRange, cal: Calendar)
    requires |xs| > 0 && Hourly(p, range)
    ensures var d := TrendData(xs, p, range, cal);
      && |d| == 24
      && (forall h :: 0 <= h < 24 ==> d[h].interval == HourStart(MinDate(xs), h))
      && (forall e :: Holds(HourWindow(DayStart(MinDate(xs))), e) <==> e.date == MinDate(xs))
      && (forall h :: 1 <= h < 24 ==> d[h].amount == 0.0 && d[h].count == 0)
  {
    var lo := MinDate(xs);
    var ws := HourWindows(lo);
    var d := TrendData(xs, p, range, cal);
    assert d == Points(ws, xs);
    forall h | 0 <= h < 24
      ensures d[h] == Point(HourWindow(HourStart(lo, h)), xs)
    {
    }
    forall h | 1 <= h < 24
      ensures d[h].amount == 0.0 && d[h].count == 0
    {
      LaterHourEmpty(xs, h);
    }
  }

  /** The first instant of a day lies in that day's first hour and in no other hour of any day. */
  lemma MidnightHour(day: int, d: int, h: int)
    requires 0 <= h < 24
    ensures HourStart(d, h) <= DayStart(day) <= HourStart(d, h) + 3599999 <==> h == 0 && day == d
  {
    if day < d {
      assert DayStart(day) <= DayStart(d) - 86400000;
    } else if day > d {
      assert DayStart(day) >= DayStart(d) + 86400000;
    }
  }

  /** No expense of the list falls in a later hour of its first date. */
  lemma LaterHourEmpty(xs: seq<Expense>, h: int)
    requires |xs| > 0 && 1 <= h < 24
    ensures Filter(xs, InWindow(HourWindow(HourStart(MinDate(xs), h)))) == []
  {
    var w := HourWindow(HourStart(MinDate(xs), h));
    var inside := Filter(xs, InWindow(w));
    if |inside| > 0 {
      var e := inside[0];
      assert e in xs && Holds(w, e);
      MidnightHour(e.date, MinDate(xs), h);
      assert false;
    }
  }

  // ---------------------------------------------------------------------
  // The y axis
  // ---------------------------------------------------------------------

  /** `Math.max(...data.map(d => d.amount))`. */
  function LargestAmount(d: seq<TrendPoint>): (m: real)
    requires |d| > 0
    ensures forall i :: 0 <= i < |d| ==> d[i].amount <= m
    ensures exists i :: 0 <= i < |d| && d[i].amount == m
  {
    if |d| == 1 then d[0].amount
    else
      var m := LargestAmount(d[1..]);
      assert forall i :: 1 <= i < |d| ==> d[i] == d[1..][i - 1];
      if d[0].amount > m then d[0].amount else m
  }

  /**
    `Math.ceil(maxAmount / 10000) * 10000 || 10000`; the chart only computes
    it for a non-empty series.
  */
  function YAxisMax(d: seq<TrendPoint>): (r: int)
    requires |d| > 0
    ensures r % 10000 == 0 && r != 0
  {
    var top := Ceil(LargestAmount(d) / 10000.0) * 10000;
    if top == 0 then 10000 else top
  }

  /**
    With amounts that are not negative, the axis is a positive multiple of
    10000 at or above every point, and it is 10000 when every amount is 0.
  */
  lemma YAxisCovers(d: seq<TrendPoint>)
    requires |d| > 0 && forall i :: 0 <= i < |d| ==> d[i].amount >= 0.0
    ensures YAxisMax(d) > 0
    ensures forall i :: 0 <= i < |d| ==> d[i].amount <= YAxisMax(d) as real
    ensures (forall i :: 0 <= i < |d| ==> d[i].amount == 0.0) ==> YAxisMax(d) == 10000
  {
    var m := LargestAmount(d);
    var c := Ceil(m / 10000.0);
    assert m / 10000.0 <= c as real;
    assert m <= (c * 10000) as real;
  }
}
