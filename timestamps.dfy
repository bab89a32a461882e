/**
 * `bar_end_datetime` values as structured timestamps. The table stores them
 * as `YYYY-MM-DD HH:MM:SS` text and SQLite compares that text; for well-formed,
 * zero-padded values this is the lexicographic order of the fields below.
 */
module Timestamps {

  datatype Date = Date(year: int, month: int, day: int)

  datatype Timestamp = Timestamp(date: Date, hour: int, minute: int, second: int)

  /** A timestamp whose fields are in range: what `strftime` can read back. */
  predicate IsValid(t: Timestamp) {
    && 1 <= t.date.month <= 12 && 1 <= t.date.day <= 31
    && 0 <= t.hour < 24 && 0 <= t.minute < 60 && 0 <= t.second < 60
  }

  predicate DateBefore(a: Date, b: Date) {
    || a.year < b.year
    || (a.year == b.year && (a.month < b.month || (a.month == b.month && a.day < b.day)))
  }

  predicate DateAtOrBefore(a: Date, b: Date) { !DateBefore(b, a) }

  /** Strict chronological order. */
  predicate Before(a: Timestamp, b: Timestamp) {
    || DateBefore(a.date, b.date)
    || (a.date == b.date
        && (|| a.hour < b.hour
            || (a.hour == b.hour
                && (a.minute < b.minute || (a.minute == b.minute && a.second < b.second)))))
  }

  predicate AtOrBefore(a: Timestamp, b: Timestamp) { !Before(b, a) }

  /** The lower bound `f"{start_date} 00:00:00"`. */
  function StartOfDay(d: Date): Timestamp { Timestamp(d, 0, 0, 0) }

  /** The upper bound `f"{end_date} 23:59:59"`. */
  function EndOfDay(d: Date): Timestamp { Timestamp(d, 23, 59, 59) }

  /**
   * For a valid timestamp the two day bounds select by calendar date: a bar is
   * at or after `d 00:00:00` exactly when its date is `d` or later, and at or
   * before `d 23:59:59` exactly when its date is `d` or earlier.
   */
  lemma DayBounds(t: Timestamp, d: Date)
    requires IsValid(t)
    ensures AtOrBefore(StartOfDay(d), t) <==> DateAtOrBefore(d, t.date)
    ensures AtOrBefore(t, EndOfDay(d)) <==> DateAtOrBefore(t.date, d)
  {
  }
}
