/**
 * The pieces of SQL that `aggregate_timeframe_data`, `get_data` and
 * `download_data` assemble around a table: the date-range WHERE clause with
 * its bound parameters, the row cap, and SQLite's LIMIT/OFFSET.
 */
module Query {
  import opened Wrappers
  import opened Text
  import opened Timestamps

  /** `MAX_DATA_POINTS` */
  const MaxDataPoints: int := 50000

  /** A value bound to a `?` placeholder. */
  datatype Param = TimeParam(time: Timestamp) | IntParam(n: int)

  /** The two conditions the builder can add. */
  datatype Condition =
    | AtOrAfterParam    // "bar_end_datetime >= ?"
    | AtOrBeforeParam   // "bar_end_datetime <= ?"

  const Column: string := "bar_end_datetime"

  function ConditionText(c: Condition): string {
    match c
    case AtOrAfterParam => Column + " >= ?"
    case AtOrBeforeParam => Column + " <= ?"
  }

  function ConditionTexts(conds: seq<Condition>): (r: seq<string>)
    ensures |r| == |conds|
    decreases |conds|
  {
    if |conds| == 0 then [] else [ConditionText(conds[0])] + ConditionTexts(conds[1..])
  }

  /** `" AND ".join(date_conditions) if date_conditions else "1=1"` */
  function WhereClause(conds: seq<Condition>): string {
    if |conds| == 0 then "1=1" else Join(ConditionTexts(conds), Conjunction)
  }

  /** The text that follows the WHERE clause in both grouped queries and the raw one. */
  const LimitClause: string := "LIMIT ?"

  function Placeholders(sql: string): nat { CountChar(sql, '?') }

  lemma LimitPlaceholder()
    ensures Placeholders(LimitClause) == 1
  {
    assert LimitClause == "LIMIT " + "?";
    OnePlaceholderAtEnd("LIMIT ");
  }

  /** One condition with the parameter bound to its placeholder. */
  predicate Holds(c: Condition, p: Param, t: Timestamp) {
    match c
    case AtOrAfterParam => p.TimeParam? && AtOrBefore(p.time, t)
    case AtOrBeforeParam => p.TimeParam? && AtOrBefore(t, p.time)
  }

  /**
   * The WHERE clause evaluated for one row: placeholders bind positionally,
   * the i-th condition to the i-th parameter, and all conditions must hold.
   */
  predicate EvalWhere(conds: seq<Condition>, params: seq<Param>, t: Timestamp) {
    forall i :: 0 <= i < |conds| ==> i < |params| && Holds(conds[i], params[i], t)
  }

  /** The date range the request asks for (an absent or empty date means no bound). */
  predicate InDateRange(t: Timestamp, startDate: Option<Date>, endDate: Option<Date>) {
    && (startDate.Some? ==> AtOrBefore(StartOfDay(startDate.value), t))
    && (endDate.Some? ==> AtOrBefore(t, EndOfDay(endDate.value)))
  }

  /** A literal ending in its only `?`. */
  lemma OnePlaceholderAtEnd(prefix: string)
    requires forall i :: 0 <= i < |prefix| ==> prefix[i] != '?'
    ensures Placeholders(prefix + "?") == 1
  {
    CountCharAbsent(prefix, '?');
    CountCharAppend(prefix, "?", '?');
  }

  lemma ConditionPlaceholder(c: Condition)
    ensures Placeholders(ConditionText(c)) == 1
  {
    var op := if c == AtOrAfterParam then " >= " else " <= ";
    assert ConditionText(c) == (Column + op) + "?";
    OnePlaceholderAtEnd(Column + op);
  }

  const Conjunction: string := " AND "

  lemma ConjunctionPlaceholders()
    ensures Placeholders(Conjunction) == 0
  {
    CountCharAbsent(Conjunction, '?');
  }

  lemma {:induction false} JoinedPlaceholders(conds: seq<Condition>)
    requires |conds| > 0
    ensures Placeholders(Join(ConditionTexts(conds), Conjunction)) == |conds|
    decreases |conds|
  {
    ConditionPlaceholder(conds[0]);
    if |conds| >= 2 {
      JoinedPlaceholders(conds[1..]);
      var texts := ConditionTexts(conds);
      var rest := Join(ConditionTexts(conds[1..]), Conjunction);
      assert texts[1..] == ConditionTexts(conds[1..]);
      assert Join(texts, Conjunction) == texts[0] + Conjunction + rest;
      ConjunctionPlaceholders();
      CountCharAppend(texts[0], Conjunction, '?');
      CountCharAppend(texts[0] + Conjunction, rest, '?');
    }
  }

  /** The WHERE clause has one placeholder per condition ("1=1" has none). */
  lemma WherePlaceholders(conds: seq<Condition>)
    ensures Placeholders(WhereClause(conds)) == |conds|
  {
    if |conds| > 0 {
      JoinedPlaceholders(conds);
    } else {
      CountCharAbsent("1=1", '?');
    }
  }

  /**
   * The WHERE builder (the same code appears at three call sites): one
   * condition and one parameter per supplied bound, start first; no bound
   * gives "1=1". The conditions select exactly the requested date range.
   * With QueryPlaceholders (one `?` per condition, one more for the limit) it
   * follows that the finished query has as many placeholders as parameters.
   */
  method BuildDateConditions(startDate: Option<Date>, endDate: Option<Date>)
      returns (conds: seq<Condition>, params: seq<Param>)
    ensures |conds| == |params| == (if startDate.Some? then 1 else 0) + (if endDate.Some? then 1 else 0)
    ensures forall t :: EvalWhere(conds, params, t) <==> InDateRange(t, startDate, endDate)
  {
    conds, params := [], [];
    if startDate.Some? {
      conds := conds + [AtOrAfterParam];
      params := params + [TimeParam(StartOfDay(startDate.value))];
    }
    ghost var startConds, startParams := conds, params;
    if endDate.Some? {
      conds := conds + [AtOrBeforeParam];
      params := params + [TimeParam(EndOfDay(endDate.value))];
    }
    assert conds == startConds + (if endDate.Some? then [AtOrBeforeParam] else []);
    assert params == startParams + (if endDate.Some? then [TimeParam(EndOfDay(endDate.value))] else []);
    DateConditionsMeaning(startDate, endDate, conds, params);
  }

  lemma DateConditionsMeaning(startDate: Option<Date>, endDate: Option<Date>,
                              conds: seq<Condition>, params: seq<Param>)
    requires conds == (if startDate.Some? then [AtOrAfterParam] else []) + (if endDate.Some? then [AtOrBeforeParam] else [])
    requires params == (if startDate.Some? then [TimeParam(StartOfDay(startDate.value))] else [])
                     + (if endDate.Some? then [TimeParam(EndOfDay(endDate.value))] else [])
    ensures forall t :: EvalWhere(conds, params, t) <==> InDateRange(t, startDate, endDate)
  {
    forall t ensures EvalWhere(conds, params, t) <==> InDateRange(t, startDate, endDate) {
      DateConditionsSelect(startDate, endDate, conds, params, t);
    }
  }

  lemma DateConditionsSelect(startDate: Option<Date>, endDate: Option<Date>,
                             conds: seq<Condition>, params: seq<Param>, t: Timestamp)
    requires conds == (if startDate.Some? then [AtOrAfterParam] else []) + (if endDate.Some? then [AtOrBeforeParam] else [])
    requires params == (if startDate.Some? then [TimeParam(StartOfDay(startDate.value))] else [])
                     + (if endDate.Some? then [TimeParam(EndOfDay(endDate.value))] else [])
    ensures EvalWhere(conds, params, t) <==> InDateRange(t, startDate, endDate)
  {
    if startDate.Some? && endDate.Some? {
      assert conds == [AtOrAfterParam, AtOrBeforeParam];
      assert EvalWhere(conds, params, t) <==> Holds(conds[0], params[0], t) && Holds(conds[1], params[1], t);
    } else if startDate.Some? {
      assert EvalWhere(conds, params, t) <==> Holds(conds[0], params[0], t);
    } else if endDate.Some? {
      assert EvalWhere(conds, params, t) <==> Holds(conds[0], params[0], t);
    }
  }

  /** `params.append(limit)`: the limit is bound after the date parameters. */
  function WithLimit(params: seq<Param>, limit: int): seq<Param> {
    params + [IntParam(limit)]
  }

  /**
   * With `LIMIT ?` appended, the query has one placeholder more than its WHERE
   * clause, so with one parameter per condition and the limit appended the
   * placeholders and the bound values agree in number, and the last `?`, the
   * one of `LIMIT`, receives the limit.
   */
  lemma QueryPlaceholders(conds: seq<Condition>, params: seq<Param>, limit: int)
    requires |conds| == |params|
    ensures Placeholders(WhereClause(conds)) == |conds|
    ensures Placeholders(WhereClause(conds) + LimitClause) == |conds| + 1
    ensures var bound := WithLimit(params, limit);
            && Placeholders(WhereClause(conds) + LimitClause) == |bound|
            && bound[..|params|] == params
            && bound[|bound| - 1] == IntParam(limit)
  {
    WherePlaceholders(conds);
    LimitPlaceholder();
    CountCharAppend(WhereClause(conds), LimitClause, '?');
  }

  // ---------------------------------------------------------------------
  // limits

  /** `min(int(request.args.get('limit', MAX_DATA_POINTS)), MAX_DATA_POINTS)` */
  function ClampLimit(requested: int): (r: int)
    ensures r <= MaxDataPoints && r <= requested
    ensures r == requested || r == MaxDataPoints
  {
    if requested < MaxDataPoints then requested else MaxDataPoints
  }

  /** SQLite's `LIMIT n`: a negative n means no limit. */
  function SqlLimit<T>(rows: seq<T>, n: int): seq<T> {
    if n < 0 || n >= |rows| then rows else rows[..n]
  }

  /** SQLite's `LIMIT n OFFSET m`: a negative offset counts as 0. */
  function SqlLimitOffset<T>(rows: seq<T>, n: int, m: int): seq<T> {
    var skip := if m < 0 then 0 else if m > |rows| then |rows| else m;
    SqlLimit(rows[skip..], n)
  }

  /**
   * LIMIT keeps the first rows in order: exactly n of them when n is not
   * negative and the query has more, all of them otherwise.
   */
  lemma SqlLimitPrefix<T>(rows: seq<T>, n: int)
    ensures var r := SqlLimit(rows, n);
              && r == rows[..|r|]
              && |r| == (if n < 0 || n >= |rows| then |rows| else n)
              && (n >= 0 ==> |r| <= n)
              && (n < 0 || n >= |rows| <==> r == rows)
  {
  }

  /** The clamp caps every non-negative request at `MAX_DATA_POINTS` rows. */
  lemma ClampCapsRows<T>(rows: seq<T>, requested: int)
    requires requested >= 0
    ensures |SqlLimit(rows, ClampLimit(requested))| <= MaxDataPoints
    ensures |SqlLimit(rows, ClampLimit(requested))| <= requested
  {
  }

  /**
   * The clamp bounds only from above: a negative limit such as `limit=-1`
   * survives it, and SQLite then returns every row, however many.
   */
  lemma NegativeLimitIsUncapped<T>(rows: seq<T>, requested: int)
    requires requested < 0
    ensures ClampLimit(requested) == requested
    ensures SqlLimit(rows, ClampLimit(requested)) == rows
  {
  }

  /** The cap as evidently intended: the requested limit forced into 0..MAX_DATA_POINTS. */
  function CappedLimit(requested: int): (r: int)
    ensures 0 <= r <= MaxDataPoints
    ensures 0 <= requested <= MaxDataPoints ==> r == requested
  {
    if requested < 0 then 0 else ClampLimit(requested)
  }

  lemma CappedLimitBoundsRows<T>(rows: seq<T>, requested: int)
    ensures |SqlLimit(rows, CappedLimit(requested))| <= MaxDataPoints
  {
  }
}
