/**
 * `aggregate_timeframe_data`: the grouped query that turns stored price bars
 * into candles of a coarser timeframe, and the loop that converts its rows.
 *
 * The query is declarative SQL: filter by date, group by a bucket key,
 * reduce every group with MIN/MAX/SUM/COUNT and first/last-by-time picks,
 * order by the key, limit. The table is given here as the sequence of its
 * rows listed by `bar_end_datetime`, the order its window functions use;
 * over such a sequence every bucket is one maximal run of equal keys, and
 * `Rows` computes the grouping that way. The lemmas prove that each output
 * row is the SQL aggregate of exactly the bars of its bucket.
 */
module Aggregation {
  import opened Wrappers
  import opened Timestamps
  import opened Query
  import opened Arith

  /** A stored bar; a missing (NULL) column is `None`. */
  datatype Bar = Bar(barEnd: Timestamp, open: Option<int>, high: Option<int>,
                     low: Option<int>, close: Option<int>, volume: Option<int>)

  /** A bucket key: `DATE(...)` for daily candles, an aligned datetime otherwise. */
  datatype Period = DayPeriod(day: Date) | MinutePeriod(start: Timestamp)

  /** One row of the grouped query, before conversion. */
  datatype SqlRow = SqlRow(period: Period, open: Option<int>, high: Option<int>, low: Option<int>,
                           close: Option<int>, volume: Option<int>, barCount: nat)

  /** One element of the list the function returns. */
  datatype DataPoint = DataPoint(datetime: Period, open: int, high: int, low: int,
                                 close: int, volume: int, barCount: nat)

  datatype AggregateError = UnsupportedTimeframe(timeframe: string)

  type Minutes = k: nat | k > 0 witness 1

  const Daily: Minutes := 1440

  /** The `intervals` table of supported timeframes. */
  const Intervals: map<string, Minutes> := map[
    "1min" := 1, "5min" := 5, "15min" := 15, "30min" := 30,
    "60min" := 60, "120min" := 120, "240min" := 240, "1day" := 1440]

  function PeriodStart(p: Period): Timestamp {
    match p
    case DayPeriod(d) => StartOfDay(d)
    case MinutePeriod(t) => t
  }

  /** `ORDER BY period`: the period strings compare as their start times. */
  predicate PeriodBefore(p: Period, q: Period) { Before(PeriodStart(p), PeriodStart(q)) }

  /**
   * The GROUP BY key: the calendar date for `1day`; otherwise the bar's date
   * and hour, the minute rounded down to a multiple of k, and zero seconds.
   */
  function BucketKey(k: Minutes, t: Timestamp): Period {
    if k == Daily then DayPeriod(t.date)
    else MinutePeriod(Timestamp(t.date, t.hour, (t.minute / k) * k, 0))
  }

  /** The grouping key of a bar for interval k. */
  function KeyOf(k: Minutes): Bar -> Period { (b: Bar) => BucketKey(k, b.barEnd) }

  /** A key that never puts a later bar in an earlier bucket. */
  ghost predicate Monotone(key: Bar -> Period) {
    forall a: Bar, b: Bar :: IsValid(a.barEnd) && IsValid(b.barEnd) && AtOrBefore(a.barEnd, b.barEnd) ==>
      key(a) == key(b) || PeriodBefore(key(a), key(b))
  }

  /** The table's rows listed by `bar_end_datetime`; every timestamp well formed. */
  predicate Sorted(bars: seq<Bar>) {
    && (forall i :: 0 <= i < |bars| ==> IsValid(bars[i].barEnd))
    && (forall i, j :: 0 <= i < j < |bars| ==> AtOrBefore(bars[i].barEnd, bars[j].barEnd))
  }

  // ---------------------------------------------------------------------
  // SQL aggregate functions (NULLs are ignored; all-NULL gives NULL)

  /** `MAX(x)` */
  function SqlMax(xs: seq<Option<int>>): (r: Option<int>)
    ensures r.None? <==> forall i :: 0 <= i < |xs| ==> xs[i].None?
    ensures r.Some? ==> exists i :: 0 <= i < |xs| && xs[i] == r
    ensures r.Some? ==> forall i :: 0 <= i < |xs| && xs[i].Some? ==> xs[i].value <= r.value
    decreases |xs|
  {
    if |xs| == 0 then None
    else
      var rest := SqlMax(xs[1..]);
      if xs[0].None? then rest
      else if rest.None? || rest.value <= xs[0].value then xs[0]
      else rest
  }

  /** `MIN(x)` */
  function SqlMin(xs: seq<Option<int>>): (r: Option<int>)
    ensures r.None? <==> forall i :: 0 <= i < |xs| ==> xs[i].None?
    ensures r.Some? ==> exists i :: 0 <= i < |xs| && xs[i] == r
    ensures r.Some? ==> forall i :: 0 <= i < |xs| && xs[i].Some? ==> r.value <= xs[i].value
    decreases |xs|
  {
    if |xs| == 0 then None
    else
      var rest := SqlMin(xs[1..]);
      if xs[0].None? then rest
      else if rest.None? || xs[0].value <= rest.value then xs[0]
      else rest
  }

  /** Sum of the non-NULL values. */
  function SumPresent(xs: seq<Option<int>>): int
    decreases |xs|
  {
    if |xs| == 0 then 0 else xs[0].GetOr(0) + SumPresent(xs[1..])
  }

  /** `SUM(x)` */
  function SqlSum(xs: seq<Option<int>>): (r: Option<int>)
    ensures r.None? <==> forall i :: 0 <= i < |xs| ==> xs[i].None?
    ensures r.GetOr(0) == SumPresent(xs)
    decreases |xs|
  {
    if |xs| == 0 then None
    else
      var rest := SqlSum(xs[1..]);
      if xs[0].None? then rest
      else Some(xs[0].value + rest.GetOr(0))
  }

  function Highs(bars: seq<Bar>): seq<Option<int>> { seq(|bars|, i requires 0 <= i < |bars| => bars[i].high) }

  function Lows(bars: seq<Bar>): seq<Option<int>> { seq(|bars|, i requires 0 <= i < |bars| => bars[i].low) }

  function Volumes(bars: seq<Bar>): seq<Option<int>> { seq(|bars|, i requires 0 <= i < |bars| => bars[i].volume) }

  // ---------------------------------------------------------------------
  // the grouped query

  /**
   * The SELECT list over one bucket listed in time order: the open of the
   * bar with `rn_first = 1`, the close of the bar with `rn_last = 1`,
   * MAX(high), MIN(low), SUM(volume) and COUNT(*).
   */
  function Reduce(key: Bar -> Period, g: seq<Bar>): SqlRow
    requires |g| > 0
  {
    SqlRow(key(g[0]), g[0].open, SqlMax(Highs(g)), SqlMin(Lows(g)),
           g[|g| - 1].close, SqlSum(Volumes(g)), |g|)
  }

  /** Length of the run of bars, from the first, that share the first bar's key. */
  function RunLength(key: Bar -> Period, bars: seq<Bar>, n: nat): (r: nat)
    requires 1 <= n <= |bars|
    requires forall j :: 0 <= j < n ==> key(bars[j]) == key(bars[0])
    ensures n <= r <= |bars|
    ensures forall j :: 0 <= j < r ==> key(bars[j]) == key(bars[0])
    ensures r == |bars| || key(bars[r]) != key(bars[0])
    decreases |bars| - n
  {
    if n < |bars| && key(bars[n]) == key(bars[0]) then RunLength(key, bars, n + 1) else n
  }

  /** GROUP BY period ... ORDER BY period over bars listed in time order. */
  function Rows(key: Bar -> Period, bars: seq<Bar>): (rows: seq<SqlRow>)
    ensures |rows| <= |bars|
    ensures forall i :: 0 <= i < |rows| ==> rows[i].barCount >= 1
    decreases |bars|
  {
    if |bars| == 0 then []
    else
      var n := RunLength(key, bars, 1);
      [Reduce(key, bars[..n])] + Rows(key, bars[n..])
  }

  /** `WHERE` with the date bounds the request supplied. */
  function FilterRange(bars: seq<Bar>, startDate: Option<Date>, endDate: Option<Date>): (r: seq<Bar>)
    ensures forall x :: x in r <==> x in bars && InDateRange(x.barEnd, startDate, endDate)
    decreases |bars|
  {
    if |bars| == 0 then []
    else
      (if InDateRange(bars[0].barEnd, startDate, endDate) then [bars[0]] else [])
      + FilterRange(bars[1..], startDate, endDate)
  }

  /** `WHERE` as the built conditions and parameters evaluate it. */
  function FilterWhere(bars: seq<Bar>, conds: seq<Condition>, params: seq<Param>): seq<Bar>
    decreases |bars|
  {
    if |bars| == 0 then []
    else
      (if EvalWhere(conds, params, bars[0].barEnd) then [bars[0]] else [])
      + FilterWhere(bars[1..], conds, params)
  }

  /** The timeframe query's rows, before `LIMIT`. */
  function Buckets(key: Bar -> Period, bars: seq<Bar>, startDate: Option<Date>, endDate: Option<Date>): seq<SqlRow> {
    Rows(key, FilterRange(bars, startDate, endDate))
  }

  /** The timeframe query's result. */
  function GroupedQuery(key: Bar -> Period, bars: seq<Bar>, startDate: Option<Date>, endDate: Option<Date>,
                        limit: int): seq<SqlRow>
  {
    SqlLimit(Buckets(key, bars, startDate, endDate), limit)
  }

  /** The bars of bucket `p`, in the order listed. */
  function Members(key: Bar -> Period, bars: seq<Bar>, p: Period): seq<Bar>
    decreases |bars|
  {
    if |bars| == 0 then []
    else (if key(bars[0]) == p then [bars[0]] else []) + Members(key, bars[1..], p)
  }

  // ---------------------------------------------------------------------
  // row conversion

  /** `float(x) if x else 0`: a missing value and a zero both give 0. */
  function Num(v: Option<int>): (r: int)
    ensures r == v.GetOr(0)
  {
    if v.Some? && v.value != 0 then v.value else 0
  }

  function ConvertRow(row: SqlRow): DataPoint {
    DataPoint(row.period, Num(row.open), Num(row.high), Num(row.low), Num(row.close),
              Num(row.volume), row.barCount)
  }

  /** The loop that builds `data` from the fetched rows. */
  method ConvertRows(rows: seq<SqlRow>) returns (data: seq<DataPoint>)
    ensures |data| == |rows|
    ensures forall i :: 0 <= i < |rows| ==> data[i] == ConvertRow(rows[i])
  {
    data := [];
    for i := 0 to |rows|
      invariant |data| == i
      invariant forall j :: 0 <= j < i ==> data[j] == ConvertRow(rows[j])
    {
      data := data + [ConvertRow(rows[i])];
    }
  }

  /**
   * `aggregate_timeframe_data`: an unknown timeframe fails before any query;
   * otherwise the result is the grouped query for that timeframe's interval,
   * with the date filter built by the WHERE builder and `limit` bound to
   * `LIMIT ?`, converted row by row.
   */
  method AggregateTimeframeData(bars: seq<Bar>, timeframe: string, startDate: Option<Date>,
                                endDate: Option<Date>, limit: int)
      returns (r: Result<seq<DataPoint>, AggregateError>)
    ensures timeframe !in Intervals <==> r.Failure?
    ensures r.Failure? ==> r.error == UnsupportedTimeframe(timeframe)
    ensures r.Success? ==>
              var rows := GroupedQuery(KeyOf(Intervals[timeframe]), bars, startDate, endDate, limit);
              |r.value| == |rows| && forall i :: 0 <= i < |rows| ==> r.value[i] == ConvertRow(rows[i])
  {
    if timeframe !in Intervals {
      return Failure(UnsupportedTimeframe(timeframe));
    }
    var k := Intervals[timeframe];
    var conds, params := BuildDateConditions(startDate, endDate);
    FilterWhereIsRange(bars, conds, params, startDate, endDate);
    var rows := SqlLimit(Rows(KeyOf(k), FilterWhere(bars, conds, params)), limit);
    var data := ConvertRows(rows);
    return Success(data);
  }

  // ---------------------------------------------------------------------
  // lemmas: filtering

  lemma {:induction false} FilterWhereIsRange(bars: seq<Bar>, conds: seq<Condition>, params: seq<Param>,
                                              startDate: Option<Date>, endDate: Option<Date>)
    requires forall t :: EvalWhere(conds, params, t) <==> InDateRange(t, startDate, endDate)
    ensures FilterWhere(bars, conds, params) == FilterRange(bars, startDate, endDate)
    decreases |bars|
  {
    if |bars| > 0 {
      FilterWhereIsRange(bars[1..], conds, params, startDate, endDate);
    }
  }

  lemma SortedCons(x: Bar, s: seq<Bar>)
    requires IsValid(x.barEnd) && Sorted(s)
    requires forall y :: y in s ==> AtOrBefore(x.barEnd, y.barEnd)
    ensures Sorted([x] + s)
  {
    var t := [x] + s;
    forall i, j | 0 <= i < j < |t| ensures AtOrBefore(t[i].barEnd, t[j].barEnd) {
      if i > 0 {
        assert t[i] == s[i - 1] && t[j] == s[j - 1];
      } else {
        assert t[j] in s;
      }
    }
  }

  lemma SortedTail(s: seq<Bar>, n: nat)
    requires Sorted(s) && n <= |s|
    ensures Sorted(s[n..])
    ensures forall j, y :: 0 <= j < n && y in s[n..] ==> AtOrBefore(s[j].barEnd, y.barEnd)
  {
    forall i, j | 0 <= i < j < |s[n..]| ensures AtOrBefore(s[n..][i].barEnd, s[n..][j].barEnd) {
      assert s[n..][i] == s[n + i] && s[n..][j] == s[n + j];
    }
  }

  /** The date filter keeps the time order. */
  lemma {:induction false} FilterRangeSorted(bars: seq<Bar>, startDate: Option<Date>, endDate: Option<Date>)
    requires Sorted(bars)
    ensures Sorted(FilterRange(bars, startDate, endDate))
    decreases |bars|
  {
    if |bars| > 0 {
      SortedTail(bars, 1);
      FilterRangeSorted(bars[1..], startDate, endDate);
      if InDateRange(bars[0].barEnd, startDate, endDate) {
        SortedCons(bars[0], FilterRange(bars[1..], startDate, endDate));
      }
    }
  }

  // ---------------------------------------------------------------------
  // lemmas: members of a bucket

  lemma {:induction false} MembersAppend(key: Bar -> Period, a: seq<Bar>, b: seq<Bar>, p: Period)
    ensures Members(key, a + b, p) == Members(key, a, p) + Members(key, b, p)
    decreases |a|
  {
    if |a| > 0 {
      assert (a + b)[1..] == a[1..] + b;
      MembersAppend(key, a[1..], b, p);
    } else {
      assert a + b == b;
    }
  }

  lemma {:induction false} MembersOfRun(key: Bar -> Period, g: seq<Bar>, q: Period, p: Period)
    requires forall j :: 0 <= j < |g| ==> key(g[j]) == q
    ensures Members(key, g, p) == if p == q then g else []
    decreases |g|
  {
    if |g| > 0 {
      MembersOfRun(key, g[1..], q, p);
      assert g == [g[0]] + g[1..];
    }
  }

  lemma {:induction false} MembersOfOthers(key: Bar -> Period, s: seq<Bar>, p: Period)
    requires forall j :: 0 <= j < |s| ==> key(s[j]) != p
    ensures Members(key, s, p) == []
    decreases |s|
  {
    if |s| > 0 {
      MembersOfOthers(key, s[1..], p);
    }
  }

  lemma {:induction false} MembersAreInBucket(key: Bar -> Period, s: seq<Bar>, p: Period)
    ensures forall x :: x in Members(key, s, p) <==> x in s && key(x) == p
    decreases |s|
  {
    if |s| > 0 {
      MembersAreInBucket(key, s[1..], p);
    }
  }

  /** The bars of a bucket are listed in time order too. */
  lemma {:induction false} MembersSorted(key: Bar -> Period, s: seq<Bar>, p: Period)
    requires Sorted(s)
    ensures Sorted(Members(key, s, p))
    decreases |s|
  {
    if |s| > 0 {
      SortedTail(s, 1);
      MembersSorted(key, s[1..], p);
      MembersAreInBucket(key, s[1..], p);
      if key(s[0]) == p {
        SortedCons(s[0], Members(key, s[1..], p));
      }
    }
  }

  // ---------------------------------------------------------------------
  // lemmas: bucket keys

  lemma MultipleMod(q: int, k: int)
    requires k > 0
    ensures (q * k) % k == 0 && (q * k) / k == q
  {
    var m := q * k;
    var d, r := m / k, m % k;
    assert (q - d) * k == r by {
      assert m == d * k + r;
      assert (q - d) * k == q * k - d * k;
    }
    if q - d >= 1 {
      MulMonotone(1, q - d, k);
    } else if q - d <= -1 {
      MulMonotone(q - d, -1, k);
    }
  }

  /** `a / k * k` is the multiple of k at or below a and less than k below it. */
  lemma FloorMultiple(a: int, k: int)
    requires a >= 0 && k > 0
    ensures 0 <= (a / k) * k <= a < (a / k) * k + k
    ensures ((a / k) * k) % k == 0
  {
    MulMonotone(0, a / k, k);
    MultipleMod(a / k, k);
  }

  lemma DivMonotone(a: int, b: int, k: int)
    requires k > 0 && a <= b
    ensures a / k <= b / k
  {
    var qa, qb := a / k, b / k;
    if qa > qb {
      MulMonotone(qb + 1, qa, k);
      assert false;
    }
  }

  lemma FloorMultipleMonotone(a: int, b: int, k: int)
    requires k > 0 && a <= b
    ensures (a / k) * k <= (b / k) * k
  {
    DivMonotone(a, b, k);
    MulMonotone(a / k, b / k, k);
  }

  /** Later bars never get an earlier bucket. */
  lemma KeyOrder(k: Minutes, t: Timestamp, u: Timestamp)
    requires AtOrBefore(t, u)
    ensures BucketKey(k, t) == BucketKey(k, u) || PeriodBefore(BucketKey(k, t), BucketKey(k, u))
  {
    if k != Daily && t.date == u.date && t.hour == u.hour {
      FloorMultipleMonotone(t.minute, u.minute, k);
    }
  }

  lemma KeyOfMonotone(k: Minutes)
    ensures Monotone(KeyOf(k))
  {
    forall a: Bar, b: Bar | IsValid(a.barEnd) && IsValid(b.barEnd) && AtOrBefore(a.barEnd, b.barEnd)
      ensures KeyOf(k)(a) == KeyOf(k)(b) || PeriodBefore(KeyOf(k)(a), KeyOf(k)(b))
    {
      KeyOrder(k, a.barEnd, b.barEnd);
    }
  }

  /** Along `bars` the keys never go back: the bars of a bucket come before those of later buckets. */
  ghost predicate KeysAscend(key: Bar -> Period, bars: seq<Bar>) {
    forall i, j :: 0 <= i < j < |bars| ==> key(bars[i]) == key(bars[j]) || PeriodBefore(key(bars[i]), key(bars[j]))
  }

  /** A monotone key over bars listed in time order ascends. */
  lemma SortedKeysAscend(key: Bar -> Period, bars: seq<Bar>)
    requires Monotone(key) && Sorted(bars)
    ensures KeysAscend(key, bars)
  {
    forall i, j | 0 <= i < j < |bars|
      ensures key(bars[i]) == key(bars[j]) || PeriodBefore(key(bars[i]), key(bars[j]))
    {
      assert IsValid(bars[i].barEnd) && IsValid(bars[j].barEnd) && AtOrBefore(bars[i].barEnd, bars[j].barEnd);
    }
  }

  lemma KeysAscendTail(key: Bar -> Period, bars: seq<Bar>, n: nat)
    requires KeysAscend(key, bars) && n <= |bars|
    ensures KeysAscend(key, bars[n..])
  {
    var tail := bars[n..];
    forall i, j | 0 <= i < j < |tail|
      ensures key(tail[i]) == key(tail[j]) || PeriodBefore(key(tail[i]), key(tail[j]))
    {
      assert tail[i] == bars[n + i] && tail[j] == bars[n + j];
    }
  }

  lemma {:induction false} RunIsFollowedByLaterBuckets(key: Bar -> Period, bars: seq<Bar>)
    requires KeysAscend(key, bars) && |bars| > 0
    ensures var n := RunLength(key, bars, 1);
            forall j :: 0 <= j < |bars[n..]| ==> PeriodBefore(key(bars[0]), key(bars[n..][j]))
  {
    var n := RunLength(key, bars, 1);
    if n < |bars| {
      assert PeriodBefore(key(bars[0]), key(bars[n]));
      forall j | 0 <= j < |bars[n..]| ensures PeriodBefore(key(bars[0]), key(bars[n..][j])) {
        assert bars[n..][j] == bars[n + j];
        if j > 0 {
          assert key(bars[n]) == key(bars[n + j]) || PeriodBefore(key(bars[n]), key(bars[n + j]));
        }
      }
    }
  }

  /** Every row after the first run's is for a later bucket. */
  lemma LaterRows(key: Bar -> Period, bars: seq<Bar>, n: nat)
    requires KeysAscend(key, bars) && |bars| > 0 && n == RunLength(key, bars, 1)
    ensures forall i :: 0 <= i < |Rows(key, bars[n..])| ==> PeriodBefore(key(bars[0]), Rows(key, bars[n..])[i].period)
  {
    RunIsFollowedByLaterBuckets(key, bars);
    RowsAfter(key, bars[n..], key(bars[0]));
  }

  // ---------------------------------------------------------------------
  // lemmas: the rows of the grouped query

  lemma {:induction false} RowsAfter(key: Bar -> Period, bars: seq<Bar>, p: Period)
    requires forall j :: 0 <= j < |bars| ==> PeriodBefore(p, key(bars[j]))
    ensures forall i :: 0 <= i < |Rows(key, bars)| ==> PeriodBefore(p, Rows(key, bars)[i].period)
    decreases |bars|
  {
    if |bars| > 0 {
      var n := RunLength(key, bars, 1);
      RowsAfter(key, bars[n..], p);
    }
  }

  /** A row before rows that strictly ascend and are all later keeps them ascending. */
  lemma ConsAscending(first: SqlRow, rest: seq<SqlRow>)
    requires forall i, j :: 0 <= i < j < |rest| ==> PeriodBefore(rest[i].period, rest[j].period)
    requires forall j :: 0 <= j < |rest| ==> PeriodBefore(first.period, rest[j].period)
    ensures var rows := [first] + rest;
            forall i, j :: 0 <= i < j < |rows| ==> PeriodBefore(rows[i].period, rows[j].period)
  {
    var rows := [first] + rest;
    forall i, j | 0 <= i < j < |rows| ensures PeriodBefore(rows[i].period, rows[j].period) {
      assert rows[j] == rest[j - 1];
      if i > 0 {
        assert rows[i] == rest[i - 1];
      }
    }
  }

  /** Periods strictly ascend: one row per bucket, in key order. */
  lemma {:induction false} RowsAscending(key: Bar -> Period, bars: seq<Bar>)
    requires KeysAscend(key, bars)
    ensures forall i, j :: 0 <= i < j < |Rows(key, bars)| ==> PeriodBefore(Rows(key, bars)[i].period, Rows(key, bars)[j].period)
    decreases |bars|
  {
    if |bars| > 0 {
      var n := RunLength(key, bars, 1);
      var tail := bars[n..];
      KeysAscendTail(key, bars, n);
      RowsAscending(key, tail);
      LaterRows(key, bars, n);
      var first, rest := Reduce(key, bars[..n]), Rows(key, tail);
      assert bars[..n][0] == bars[0];
      assert first.period == key(bars[0]);
      assert tail == bars[RunLength(key, bars, 1)..];
      assert forall j :: 0 <= j < |rest| ==> PeriodBefore(key(bars[0]), rest[j].period);
      ConsAscending(first, rest);
    }
  }

  /** The first run is the whole first bucket. */
  lemma FirstBucket(key: Bar -> Period, bars: seq<Bar>)
    requires KeysAscend(key, bars) && |bars| > 0
    ensures var n := RunLength(key, bars, 1);
            Members(key, bars, key(bars[0])) == bars[..n]
  {
    var n := RunLength(key, bars, 1);
    var g, tail := bars[..n], bars[n..];
    var key0 := key(bars[0]);
    assert forall j :: 0 <= j < |tail| ==> key(tail[j]) != key0 by {
      RunIsFollowedByLaterBuckets(key, bars);
      LaterKeysDiffer(key, tail, key0);
    }
    RunPrefixKeys(key, bars, n);
    calc {
      Members(key, bars, key0);
      { SplitAt(bars, n); }
      Members(key, g + tail, key0);
      { MembersAppend(key, g, tail, key0); }
      Members(key, g, key0) + Members(key, tail, key0);
      { MembersOfRun(key, g, key0, key0); MembersOfOthers(key, tail, key0); }
      g + [];
    }
    assert g + [] == g;
  }

  lemma SplitAt<T>(s: seq<T>, n: nat)
    requires n <= |s|
    ensures s == s[..n] + s[n..]
  {
  }

  lemma LaterKeysDiffer(key: Bar -> Period, s: seq<Bar>, p: Period)
    requires forall j :: 0 <= j < |s| ==> PeriodBefore(p, key(s[j]))
    ensures forall j :: 0 <= j < |s| ==> key(s[j]) != p
  {
  }

  lemma RunPrefixKeys(key: Bar -> Period, bars: seq<Bar>, n: nat)
    requires n <= |bars| && forall j :: 0 <= j < n ==> key(bars[j]) == key(bars[0])
    ensures forall j :: 0 <= j < |bars[..n]| ==> key(bars[..n][j]) == key(bars[0])
  {
    forall j | 0 <= j < |bars[..n]| ensures key(bars[..n][j]) == key(bars[0]) {
      assert bars[..n][j] == bars[j];
    }
  }

  /** A bucket after the first has its bars after the first run. */
  lemma LaterBucket(key: Bar -> Period, bars: seq<Bar>, p: Period)
    requires |bars| > 0 && PeriodBefore(key(bars[0]), p)
    ensures var n := RunLength(key, bars, 1);
            Members(key, bars, p) == Members(key, bars[n..], p)
  {
    var n := RunLength(key, bars, 1);
    var g, tail := bars[..n], bars[n..];
    SplitAt(bars, n);
    MembersAppend(key, g, tail, p);
    MembersOfRun(key, g, key(bars[0]), p);
  }

  /** Each row is the aggregate of exactly the bars whose key is its period. */
  lemma {:induction false} RowsAreBuckets(key: Bar -> Period, bars: seq<Bar>, i: nat)
    requires KeysAscend(key, bars) && i < |Rows(key, bars)|
    ensures var row := Rows(key, bars)[i];
            |Members(key, bars, row.period)| > 0 && row == Reduce(key, Members(key, bars, row.period))
    decreases |bars|
  {
    var n := RunLength(key, bars, 1);
    var tail := bars[n..];
    assert Rows(key, bars) == [Reduce(key, bars[..n])] + Rows(key, tail);
    if i == 0 {
      var row := Rows(key, bars)[0];
      assert row == Reduce(key, bars[..n]);
      assert row.period == key(bars[0]) by {
        assert bars[..n][0] == bars[0];
      }
      FirstBucket(key, bars);
      assert Members(key, bars, row.period) == bars[..n];
    } else {
      KeysAscendTail(key, bars, n);
      var rest := Rows(key, tail);
      assert i - 1 < |rest| && Rows(key, bars)[i] == rest[i - 1];
      RowsAreBuckets(key, tail, i - 1);
      var row := rest[i - 1];
      var p := row.period;
      assert PeriodBefore(key(bars[0]), p) by {
        LaterRows(key, bars, n);
      }
      LaterBucket(key, bars, p);
      assert Members(key, bars, p) == Members(key, tail, p);
      assert row == Reduce(key, Members(key, tail, p));
    }
  }

  function PeriodsOf(rows: seq<SqlRow>): seq<Period> {
    seq(|rows|, i requires 0 <= i < |rows| => rows[i].period)
  }

  /** Every bar's bucket has a row: no bucket is lost. */
  lemma {:induction false} RowsCoverBars(key: Bar -> Period, bars: seq<Bar>)
    ensures forall j :: 0 <= j < |bars| ==> key(bars[j]) in PeriodsOf(Rows(key, bars))
    decreases |bars|
  {
    if |bars| > 0 {
      var n := RunLength(key, bars, 1);
      var tail := bars[n..];
      var head := Reduce(key, bars[..n]);
      assert bars[..n][0] == bars[0];
      assert Rows(key, bars) == [head] + Rows(key, tail);
      PeriodsOfCons(head, Rows(key, tail));
      RowsCoverBars(key, tail);
      CoverCons(key, bars, n, PeriodsOf(Rows(key, tail)));
    }
  }

  /** The first run's key followed by keys covering the rest covers every bar. */
  lemma CoverCons(key: Bar -> Period, bars: seq<Bar>, n: nat, ps: seq<Period>)
    requires 0 < n <= |bars|
    requires forall j :: 0 <= j < n ==> key(bars[j]) == key(bars[0])
    requires forall j :: 0 <= j < |bars[n..]| ==> key(bars[n..][j]) in ps
    ensures forall j :: 0 <= j < |bars| ==> key(bars[j]) in [key(bars[0])] + ps
  {
    forall j | 0 <= j < |bars| ensures key(bars[j]) in [key(bars[0])] + ps {
      if j >= n {
        assert bars[j] == bars[n..][j - n];
      }
    }
  }

  lemma PeriodsOfCons(r: SqlRow, rows: seq<SqlRow>)
    ensures PeriodsOf([r] + rows) == [r.period] + PeriodsOf(rows)
  {
  }

  function SumCounts(rows: seq<SqlRow>): nat
    decreases |rows|
  {
    if |rows| == 0 then 0 else rows[0].barCount + SumCounts(rows[1..])
  }

  /** Every bar is counted in exactly one row. */
  lemma {:induction false} RowsCountBars(key: Bar -> Period, bars: seq<Bar>)
    ensures SumCounts(Rows(key, bars)) == |bars|
    decreases |bars|
  {
    if |bars| > 0 {
      var n := RunLength(key, bars, 1);
      RowsCountBars(key, bars[n..]);
      assert Rows(key, bars)[1..] == Rows(key, bars[n..]);
    }
  }

  function SumVolumes(rows: seq<SqlRow>): int
    decreases |rows|
  {
    if |rows| == 0 then 0 else rows[0].volume.GetOr(0) + SumVolumes(rows[1..])
  }

  lemma {:induction false} SumPresentAppend(a: seq<Option<int>>, b: seq<Option<int>>)
    ensures SumPresent(a + b) == SumPresent(a) + SumPresent(b)
    decreases |a|
  {
    if |a| > 0 {
      assert (a + b)[1..] == a[1..] + b;
      SumPresentAppend(a[1..], b);
    } else {
      assert a + b == b;
    }
  }

  lemma VolumesAppend(a: seq<Bar>, b: seq<Bar>)
    ensures Volumes(a + b) == Volumes(a) + Volumes(b)
  {
  }

  /** No volume is lost or counted twice: the rows' volumes add up to the bars' non-NULL volumes. */
  lemma {:induction false} RowsConserveVolume(key: Bar -> Period, bars: seq<Bar>)
    ensures SumVolumes(Rows(key, bars)) == SumPresent(Volumes(bars))
    decreases |bars|
  {
    if |bars| > 0 {
      var n := RunLength(key, bars, 1);
      var g, tail := bars[..n], bars[n..];
      var rows := Rows(key, bars);
      assert rows == [Reduce(key, g)] + Rows(key, tail);
      assert SumVolumes(rows) == SqlSum(Volumes(g)).GetOr(0) + SumVolumes(Rows(key, tail)) by {
        assert rows[1..] == Rows(key, tail);
      }
      RowsConserveVolume(key, tail);
      assert Volumes(bars) == Volumes(g) + Volumes(tail) by {
        SplitAt(bars, n);
        VolumesAppend(g, tail);
      }
      SumPresentAppend(Volumes(g), Volumes(tail));
    }
  }

  // ---------------------------------------------------------------------
  // the timeframe query

  /**
   * `row` is the candle of the bars `m`: it counts them, at least one; they
   * are listed in time order, so the first is the earliest and the last the
   * latest; open and close are theirs, and high, low and volume are the SQL
   * aggregates over all of them.
   */
  ghost predicate IsCandle(row: SqlRow, m: seq<Bar>) {
    && |m| == row.barCount >= 1
    && Sorted(m)
    && row.open == m[0].open && row.close == m[|m| - 1].close
    && row.high == SqlMax(Highs(m)) && row.low == SqlMin(Lows(m)) && row.volume == SqlSum(Volumes(m))
  }

  /**
   * Each row the timeframe query returns is the candle of one bucket: the
   * bars in the date range whose key is the row's period, at least one and
   * all of them; its open is the earliest one's, its close the latest one's,
   * and high, low and volume are the SQL aggregates over all of them.
   */
  lemma GroupedRowIsCandle(k: Minutes, bars: seq<Bar>, startDate: Option<Date>, endDate: Option<Date>,
                           limit: int, i: nat)
    requires Sorted(bars)
    requires i < |GroupedQuery(KeyOf(k), bars, startDate, endDate, limit)|
    ensures var row := GroupedQuery(KeyOf(k), bars, startDate, endDate, limit)[i];
            var m := Members(KeyOf(k), FilterRange(bars, startDate, endDate), row.period);
            && IsCandle(row, m)
            && forall x :: x in m <==>
                 x in bars && InDateRange(x.barEnd, startDate, endDate) && BucketKey(k, x.barEnd) == row.period
  {
    var key := KeyOf(k);
    var f := FilterRange(bars, startDate, endDate);
    var rows := Rows(key, f);
    assert GroupedQuery(key, bars, startDate, endDate, limit)[i] == rows[i] by { SqlLimitPrefix(rows, limit); }
    var row := rows[i];
    var m := Members(key, f, row.period);
    assert IsCandle(row, m) && forall x :: x in m <==> x in f && key(x) == row.period by {
      FilterRangeSorted(bars, startDate, endDate);
      KeyOfMonotone(k);
      RowIsBucket(key, f, i);
    }
  }

  /**
   * Row i of the grouping is the candle of its bucket's members: as many as
   * it counts, all of them, listed in time order, opened by the first and
   * closed by the last.
   */
  lemma RowIsBucket(key: Bar -> Period, f: seq<Bar>, i: nat)
    requires Monotone(key) && Sorted(f) && i < |Rows(key, f)|
    ensures var row := Rows(key, f)[i];
            var m := Members(key, f, row.period);
            && IsCandle(row, m)
            && forall x :: x in m <==> x in f && key(x) == row.period
  {
    var row := Rows(key, f)[i];
    var m := Members(key, f, row.period);
    assert |m| > 0 && row == Reduce(key, m) by {
      SortedKeysAscend(key, f);
      RowsAreBuckets(key, f, i);
    }
    assert Sorted(m) by { MembersSorted(key, f, row.period); }
    MembersAreInBucket(key, f, row.period);
  }

  /** A bar with every price present and its low and high enclosing its open and close. */
  predicate WellFormedBar(b: Bar) {
    && b.open.Some? && b.high.Some? && b.low.Some? && b.close.Some?
    && b.low.value <= b.open.value <= b.high.value
    && b.low.value <= b.close.value <= b.high.value
  }

  /** The same invariant for a row of the grouped query. */
  predicate WellFormedRow(row: SqlRow) {
    && row.open.Some? && row.high.Some? && row.low.Some? && row.close.Some?
    && row.low.value <= row.open.value <= row.high.value
    && row.low.value <= row.close.value <= row.high.value
  }

  /** The candle of well-formed bars is well formed: MAX and MIN enclose the first open and the last close. */
  lemma CandleOfWellFormed(row: SqlRow, m: seq<Bar>)
    requires IsCandle(row, m)
    requires forall x :: x in m ==> WellFormedBar(x)
    ensures WellFormedRow(row)
  {
    var first, last := m[0], m[|m| - 1];
    assert first in m && last in m;
    assert Highs(m)[0] == first.high && Highs(m)[|m| - 1] == last.high;
    assert Lows(m)[0] == first.low && Lows(m)[|m| - 1] == last.low;
  }

  /**
   * Aggregation keeps the bar invariant: when every stored bar has its prices
   * and `low <= min(open, close)`, `high >= max(open, close)`, so does every
   * row the timeframe query returns, and so does the converted data point.
   */
  lemma GroupedQueryWellFormed(k: Minutes, bars: seq<Bar>, startDate: Option<Date>, endDate: Option<Date>,
                               limit: int)
    requires Sorted(bars)
    requires forall j :: 0 <= j < |bars| ==> WellFormedBar(bars[j])
    ensures var rows := GroupedQuery(KeyOf(k), bars, startDate, endDate, limit);
            forall i :: 0 <= i < |rows| ==>
              && WellFormedRow(rows[i])
              && var p := ConvertRow(rows[i]);
                 p.low <= p.open <= p.high && p.low <= p.close <= p.high
  {
    var rows := GroupedQuery(KeyOf(k), bars, startDate, endDate, limit);
    forall i | 0 <= i < |rows|
      ensures WellFormedRow(rows[i])
      ensures var p := ConvertRow(rows[i]); p.low <= p.open <= p.high && p.low <= p.close <= p.high
    {
      var m := Members(KeyOf(k), FilterRange(bars, startDate, endDate), rows[i].period);
      GroupedRowIsCandle(k, bars, startDate, endDate, limit, i);
      forall x | x in m ensures WellFormedBar(x) {
        var j :| 0 <= j < |bars| && bars[j] == x;
      }
      CandleOfWellFormed(rows[i], m);
    }
  }

  /**
   * The query's rows ascend strictly by period and are the earliest buckets,
   * `limit` of them when the range has more.
   */
  lemma GroupedQueryShape(k: Minutes, bars: seq<Bar>, startDate: Option<Date>, endDate: Option<Date>, limit: int)
    requires Sorted(bars)
    ensures var rows := GroupedQuery(KeyOf(k), bars, startDate, endDate, limit);
            var all := Buckets(KeyOf(k), bars, startDate, endDate);
            && (forall i, j :: 0 <= i < j < |rows| ==> PeriodBefore(rows[i].period, rows[j].period))
            && rows == all[..|rows|]
            && |rows| == (if limit < 0 || limit >= |all| then |all| else limit)
  {
    var key := KeyOf(k);
    var f := FilterRange(bars, startDate, endDate);
    FilterRangeSorted(bars, startDate, endDate);
    KeyOfMonotone(k);
    RowsAscending(key, f);
    SqlLimitPrefix(Rows(key, f), limit);
  }

  /**
   * When the limit cuts nothing off, every bar in the range is counted once,
   * its volume is summed once, and every bucket of the range has its row.
   */
  lemma GroupedQueryTotals(k: Minutes, bars: seq<Bar>, startDate: Option<Date>, endDate: Option<Date>, limit: int)
    requires Sorted(bars)
    requires limit < 0 || limit >= |Buckets(KeyOf(k), bars, startDate, endDate)|
    ensures var rows := GroupedQuery(KeyOf(k), bars, startDate, endDate, limit);
            && SumCounts(rows) == |FilterRange(bars, startDate, endDate)|
            && SumVolumes(rows) == SumPresent(Volumes(FilterRange(bars, startDate, endDate)))
            && forall x :: x in bars && InDateRange(x.barEnd, startDate, endDate) ==>
                             BucketKey(k, x.barEnd) in PeriodsOf(rows)
  {
    var key := KeyOf(k);
    var f := FilterRange(bars, startDate, endDate);
    FilterRangeSorted(bars, startDate, endDate);
    KeyOfMonotone(k);
    SqlLimitPrefix(Rows(key, f), limit);
    RowsCountBars(key, f);
    RowsConserveVolume(key, f);
    RowsCoverBars(key, f);
    forall x | x in bars && InDateRange(x.barEnd, startDate, endDate)
      ensures exists j :: 0 <= j < |f| && f[j] == x
    {
      assert x in f;
    }
  }

  // ---------------------------------------------------------------------
  // bucket keys

  lemma MulCancel(a: int, b: int, k: int)
    requires k > 0 && a * k == b * k
    ensures a == b
  {
    if a < b {
      MulMonotone(a + 1, b, k);
    } else if b < a {
      MulMonotone(b + 1, a, k);
    }
  }

  /**
   * a daily bar goes to its calendar date; a minute bar to the start of its
   * slot: same date and hour, zero seconds, the minute a multiple of k at or
   * below the bar's minute and less than k below it.
   */
  lemma BucketKeyShape(k: Minutes, t: Timestamp)
    requires IsValid(t)
    ensures k == Daily ==> BucketKey(k, t) == DayPeriod(t.date)
    ensures k != Daily ==>
              && BucketKey(k, t).MinutePeriod?
              && var s := BucketKey(k, t).start;
              && s.date == t.date && s.hour == t.hour && s.second == 0
              && s.minute % k == 0 && s.minute <= t.minute < s.minute + k
  {
    if k != Daily {
      FloorMultiple(t.minute, k);
    }
  }

  /** Two bars share a minute bucket exactly when date, hour and `minute / k` agree. */
  lemma SameMinuteBucket(k: Minutes, t: Timestamp, u: Timestamp)
    requires k != Daily
    ensures BucketKey(k, t) == BucketKey(k, u) <==>
              t.date == u.date && t.hour == u.hour && t.minute / k == u.minute / k
  {
    if BucketKey(k, t) == BucketKey(k, u) {
      MulCancel(t.minute / k, u.minute / k, k);
    }
  }

  lemma {:induction false} RunLengthSameKeys(key1: Bar -> Period, key2: Bar -> Period, bars: seq<Bar>, n: nat)
    requires forall j :: 0 <= j < |bars| ==> key1(bars[j]) == key2(bars[j])
    requires 1 <= n <= |bars| && forall j :: 0 <= j < n ==> key1(bars[j]) == key1(bars[0])
    ensures RunLength(key1, bars, n) == RunLength(key2, bars, n)
    decreases |bars| - n
  {
    if n < |bars| && key1(bars[n]) == key1(bars[0]) {
      RunLengthSameKeys(key1, key2, bars, n + 1);
    }
  }

  /** The grouped rows depend on the keys only through the keys the bars get. */
  lemma {:induction false} RowsSameKeys(key1: Bar -> Period, key2: Bar -> Period, bars: seq<Bar>)
    requires forall j :: 0 <= j < |bars| ==> key1(bars[j]) == key2(bars[j])
    ensures Rows(key1, bars) == Rows(key2, bars)
    decreases |bars|
  {
    if |bars| > 0 {
      var n := RunLength(key1, bars, 1);
      RunLengthSameKeys(key1, key2, bars, 1);
      RowsSameKeys(key1, key2, bars[n..]);
    }
  }

  /**
   * As written, `minute / k * k` is 0 for every minute when k is 120 or 240,
   * so both timeframes bucket by the hour, exactly like `60min`.
   */
  lemma HourlyTimeframesCoincide(bars: seq<Bar>, startDate: Option<Date>, endDate: Option<Date>, limit: int)
    requires forall j :: 0 <= j < |bars| ==> IsValid(bars[j].barEnd)
    ensures GroupedQuery(KeyOf(120), bars, startDate, endDate, limit)
            == GroupedQuery(KeyOf(60), bars, startDate, endDate, limit)
    ensures GroupedQuery(KeyOf(240), bars, startDate, endDate, limit)
            == GroupedQuery(KeyOf(60), bars, startDate, endDate, limit)
  {
    var f := FilterRange(bars, startDate, endDate);
    forall j | 0 <= j < |f|
      ensures KeyOf(120)(f[j]) == KeyOf(60)(f[j]) && KeyOf(240)(f[j]) == KeyOf(60)(f[j])
    {
      assert f[j] in bars;
    }
    RowsSameKeys(KeyOf(120), KeyOf(60), f);
    RowsSameKeys(KeyOf(240), KeyOf(60), f);
  }

  const TenOClock: Bar := Bar(Timestamp(Date(2024, 1, 2), 10, 0, 0), Some(1), Some(1), Some(1), Some(1), Some(1))
  const ElevenOClock: Bar := Bar(Timestamp(Date(2024, 1, 2), 11, 0, 0), Some(2), Some(2), Some(2), Some(2), Some(2))

  /** Bars at 10:00 and 11:00 of one day fall in one two-hour window yet give two `120min` rows. */
  lemma TwoHourWindowSplit()
    ensures |GroupedQuery(KeyOf(120), [TenOClock, ElevenOClock], None, None, -1)| == 2
  {
    var bars := [TenOClock, ElevenOClock];
    assert bars[1..] == [ElevenOClock] && [ElevenOClock][1..] == [];
    assert FilterRange([ElevenOClock], None, None) == [ElevenOClock];
    assert FilterRange(bars, None, None) == bars;
    assert RunLength(KeyOf(120), bars, 1) == 1;
    assert RunLength(KeyOf(120), [ElevenOClock], 1) == 1;
    assert [ElevenOClock][1..] == [];
    assert |Rows(KeyOf(120), [ElevenOClock])| == 1;
    assert |Rows(KeyOf(120), bars)| == 2;
  }

  /**
   * The bucket as evidently intended: the minute of the day rounded down to a
   * multiple of k, so a `120min` slot spans two hours.
   */
  function CorrectedBucketKey(k: Minutes, t: Timestamp): Period {
    if k == Daily then DayPeriod(t.date)
    else
      var m := ((t.hour * 60 + t.minute) / k) * k;
      MinutePeriod(Timestamp(t.date, m / 60, m % 60, 0))
  }

  function MinuteOfDay(t: Timestamp): int { t.hour * 60 + t.minute }

  function CorrectedKeyOf(k: Minutes): Bar -> Period { (b: Bar) => CorrectedBucketKey(k, b.barEnd) }

  /**
   * A corrected minute slot starts on its bar's date, at a minute of the day
   * that is a multiple of k, at most the bar's and less than k before it;
   * two bars share a slot exactly when their date and minute-of-day `/ k` agree.
   */
  lemma CorrectedBucketSpan(k: Minutes, t: Timestamp, u: Timestamp)
    requires k != Daily && IsValid(t) && IsValid(u)
    ensures var s := CorrectedBucketKey(k, t).start;
            && s.date == t.date && s.second == 0 && 0 <= s.minute < 60
            && MinuteOfDay(s) % k == 0
            && MinuteOfDay(s) <= MinuteOfDay(t) < MinuteOfDay(s) + k
    ensures CorrectedBucketKey(k, t) == CorrectedBucketKey(k, u) <==>
              t.date == u.date && MinuteOfDay(t) / k == MinuteOfDay(u) / k
  {
    var m := (MinuteOfDay(t) / k) * k;
    var mu := (MinuteOfDay(u) / k) * k;
    FloorMultiple(MinuteOfDay(t), k);
    FloorMultiple(MinuteOfDay(u), k);
    assert MinuteOfDay(CorrectedBucketKey(k, t).start) == m;
    assert MinuteOfDay(CorrectedBucketKey(k, u).start) == mu;
    if CorrectedBucketKey(k, t) == CorrectedBucketKey(k, u) {
      assert m == mu;
      MulCancel(MinuteOfDay(t) / k, MinuteOfDay(u) / k, k);
    }
  }

  /** Slot starts in minutes of the day, as hour and minute, keep the order of the minutes they come from. */
  lemma SlotOrder(x: int, y: int, k: int)
    requires 0 <= x <= y && k > 0
    ensures var a, b := (x / k) * k, (y / k) * k;
            && 0 <= a
            && (a == b || a / 60 < b / 60 || (a / 60 == b / 60 && a % 60 < b % 60))
  {
    var a, b := (x / k) * k, (y / k) * k;
    FloorMultipleMonotone(x, y, k);
    FloorMultiple(x, k);
    DivMonotone(a, b, 60);
  }

  /** A later bar never falls in an earlier corrected slot. */
  lemma CorrectedKeyOrder(k: Minutes, t: Timestamp, u: Timestamp)
    requires IsValid(t) && IsValid(u) && AtOrBefore(t, u)
    ensures CorrectedBucketKey(k, t) == CorrectedBucketKey(k, u)
            || PeriodBefore(CorrectedBucketKey(k, t), CorrectedBucketKey(k, u))
  {
    if k != Daily && t.date == u.date {
      assert MinuteOfDay(t) <= MinuteOfDay(u);
      SlotOrder(MinuteOfDay(t), MinuteOfDay(u), k);
    }
  }

  /** The corrected key is monotone too, so every grouping lemma above applies to it. */
  lemma CorrectedKeyOfMonotone(k: Minutes)
    ensures Monotone(CorrectedKeyOf(k))
  {
    forall a: Bar, b: Bar | IsValid(a.barEnd) && IsValid(b.barEnd) && AtOrBefore(a.barEnd, b.barEnd)
      ensures CorrectedKeyOf(k)(a) == CorrectedKeyOf(k)(b) || PeriodBefore(CorrectedKeyOf(k)(a), CorrectedKeyOf(k)(b))
    {
      CorrectedKeyOrder(k, a.barEnd, b.barEnd);
    }
  }

  /** With the corrected key, the bars at 10:00 and 11:00 make one `120min` candle. */
  lemma CorrectedTwoHourWindow()
    ensures |Rows(CorrectedKeyOf(120), [TenOClock, ElevenOClock])| == 1
  {
    var bars := [TenOClock, ElevenOClock];
    assert CorrectedKeyOf(120)(ElevenOClock) == CorrectedKeyOf(120)(TenOClock);
    assert RunLength(CorrectedKeyOf(120), bars, 1) == 2;
  }
}
