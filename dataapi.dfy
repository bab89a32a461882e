/**
 * `get_data`: the checks in front of a table's query and the choice between
 * the raw rows and the aggregated candles. `tableExists` is what the
 * `sqlite_master` lookup found; `bars` is the table listed by
 * `bar_end_datetime`.
 */
module DataApi {
  import opened Wrappers
  import opened Timestamps
  import opened Query
  import opened Aggregation
  import opened Catalog
  import Drawings

  /** One element of the raw-data answer. */
  datatype RawPoint = RawPoint(datetime: Timestamp, open: int, high: int, low: int, close: int, volume: int)

  datatype Response =
    | InvalidTableName               // 400
    | TableNotFound                  // 404
    | RawData(rawPoints: seq<RawPoint>)
    | Candles(candles: seq<DataPoint>)
    | UnsupportedTimeframeError      // 500: the ValueError reaches the route's handler
    | QueryFailed                    // 500: the data query or its connection raised

  function RawRow(b: Bar): RawPoint {
    RawPoint(b.barEnd, Num(b.open), Num(b.high), Num(b.low), Num(b.close), Num(b.volume))
  }

  /** The raw query: the bars in the date range, oldest first, `LIMIT ?`. */
  function RawBars(bars: seq<Bar>, startDate: Option<Date>, endDate: Option<Date>, limit: int): seq<Bar> {
    SqlLimit(FilterRange(bars, startDate, endDate), limit)
  }

  /**
   * The `raw` branch: the WHERE builder, `ORDER BY bar_end_datetime LIMIT ?`,
   * and the loop converting the fetched rows.
   */
  method RawQuery(bars: seq<Bar>, startDate: Option<Date>, endDate: Option<Date>, limit: int)
      returns (data: seq<RawPoint>)
    ensures var rows := RawBars(bars, startDate, endDate, limit);
            |data| == |rows| && forall i :: 0 <= i < |rows| ==> data[i] == RawRow(rows[i])
  {
    var conds, params := BuildDateConditions(startDate, endDate);
    FilterWhereIsRange(bars, conds, params, startDate, endDate);
    var rows := SqlLimit(FilterWhere(bars, conds, params), limit);
    data := [];
    for i := 0 to |rows|
      invariant |data| == i
      invariant forall j :: 0 <= j < i ==> data[j] == RawRow(rows[j])
    {
      data := data + [RawRow(rows[i])];
    }
  }

  /**
   * `get_data` after its arguments are parsed. `queryFails` says whether the
   * data query raises once it runs: the connection cannot be opened, or the
   * table lacks the bar columns (a table such as `saved_drawings` passes both
   * checks in front of it). The route's `except` turns that into a 500, as it
   * does the unsupported timeframe, which fails before any query.
   */
  method GetData(tableName: string, tableExists: bool, bars: seq<Bar>, queryFails: bool, timeframe: string,
                 startDate: Option<Date>, endDate: Option<Date>, limitArg: int)
      returns (resp: Response)
    ensures !ValidTableName(tableName) <==> resp == InvalidTableName
    ensures resp == TableNotFound <==> ValidTableName(tableName) && !tableExists
    ensures resp.RawData? <==> ValidTableName(tableName) && tableExists && timeframe == "raw" && !queryFails
    ensures resp.Candles? <==>
              ValidTableName(tableName) && tableExists && timeframe in Intervals && timeframe != "raw" && !queryFails
    ensures resp == UnsupportedTimeframeError <==>
              ValidTableName(tableName) && tableExists && timeframe != "raw" && timeframe !in Intervals
    ensures resp == QueryFailed <==>
              ValidTableName(tableName) && tableExists && (timeframe == "raw" || timeframe in Intervals) && queryFails
    ensures resp.RawData? ==>
              var rows := RawBars(bars, startDate, endDate, ClampLimit(limitArg));
              |resp.rawPoints| == |rows| && forall i :: 0 <= i < |rows| ==> resp.rawPoints[i] == RawRow(rows[i])
    ensures resp.Candles? ==>
              var rows := GroupedQuery(KeyOf(Intervals[timeframe]), bars, startDate, endDate, ClampLimit(limitArg));
              |resp.candles| == |rows| && forall i :: 0 <= i < |rows| ==> resp.candles[i] == ConvertRow(rows[i])
  {
    if !ValidTableName(tableName) {
      return InvalidTableName;
    }
    if !tableExists {
      return TableNotFound;
    }
    var limit := ClampLimit(limitArg);
    if timeframe == "raw" {
      if queryFails {
        return QueryFailed;
      }
      var data := RawQuery(bars, startDate, endDate, limit);
      return RawData(data);
    }
    if timeframe !in Intervals {
      // `aggregate_timeframe_data` raises its ValueError before any query runs
      return UnsupportedTimeframeError;
    }
    if queryFails {
      return QueryFailed;
    }
    var r := AggregateTimeframeData(bars, timeframe, startDate, endDate, limit);
    resp := Candles(r.value);
  }

  /**
   * For a non-negative `limit` argument, either answer holds at most
   * `MAX_DATA_POINTS` points, and the raw rows are in time order and within
   * the date range.
   */
  lemma AnswerIsCapped(bars: seq<Bar>, timeframe: string, startDate: Option<Date>, endDate: Option<Date>,
                       limitArg: int)
    requires Sorted(bars) && limitArg >= 0
    ensures |RawBars(bars, startDate, endDate, ClampLimit(limitArg))| <= MaxDataPoints
    ensures timeframe in Intervals ==>
              |GroupedQuery(KeyOf(Intervals[timeframe]), bars, startDate, endDate, ClampLimit(limitArg))| <= MaxDataPoints
    ensures var raw := RawBars(bars, startDate, endDate, ClampLimit(limitArg));
            Sorted(raw) && forall i :: 0 <= i < |raw| ==> InDateRange(raw[i].barEnd, startDate, endDate)
  {
    var f := FilterRange(bars, startDate, endDate);
    var raw := RawBars(bars, startDate, endDate, ClampLimit(limitArg));
    ClampCapsRows(f, limitArg);
    if timeframe in Intervals {
      ClampCapsRows(Buckets(KeyOf(Intervals[timeframe]), bars, startDate, endDate), limitArg);
    }
    FilterRangeSorted(bars, startDate, endDate);
    SqlLimitPrefix(f, ClampLimit(limitArg));
    forall i | 0 <= i < |raw| ensures InDateRange(raw[i].barEnd, startDate, endDate) {
      assert raw[i] == f[i];
      assert f[i] in f;
    }
  }

  /** Every timeframe a drawing can be saved with is one `get_data` serves, and conversely. */
  lemma SavedTimeframesAreServed(tf: string)
    ensures tf in Drawings.AllowedTimeframes <==> tf == "raw" || tf in Intervals
  {
  }
}
