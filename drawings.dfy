/**
 * The saved-drawings endpoints: normalising a save request, the stored
 * instruments text and its reading back, the id check of `get_drawing` and
 * `delete_drawing`, and the pagination of the drawings list.
 */
module Drawings {
  import opened Wrappers
  import opened Text
  import opened Query
  import opened Arith

  // ---------------------------------------------------------------------
  // saving

  /** The `instruments` member of a request: a JSON list, or anything else. */
  datatype InstrumentsValue = InstrumentList(items: seq<string>) | NotAList

  /** The members of the JSON body that matter here; an absent member is `None`. */
  datatype SaveRequest = SaveRequest(name: Option<string>, layout: Option<int>,
                                     instruments: Option<InstrumentsValue>, timeframe: Option<string>)

  /** The values written to the `saved_drawings` row. */
  datatype Normalised = Normalised(name: string, layout: int, instruments: string, timeframe: string)

  datatype SaveError = NameRequired | InvalidNameLength

  const MaxNameLength: nat := 255

  const AllowedTimeframes: seq<string> := ["raw", "1min", "5min", "15min", "30min", "60min", "120min", "240min", "1day"]

  const DefaultTimeframe: string := "1min"

  const Separator: char := ','

  /** `','.join(instruments)` */
  function SaveInstruments(xs: seq<string>): string { Join(xs, [Separator]) }

  function InstrumentsOf(v: Option<InstrumentsValue>): seq<string> {
    if v.Some? && v.value.InstrumentList? then v.value.items else []
  }

  /**
   * `save_drawings` up to the INSERT. A body that is absent, empty or has no
   * name fails with "Name is required"; a name that is empty or longer than
   * 255 characters once stripped fails with the length error. Otherwise the
   * stripped name is stored, a layout other than 1 or 2 becomes 1, anything
   * but a list of instruments becomes the empty list, and a timeframe outside
   * the allowed list becomes `1min`.
   */
  function NormaliseSave(body: Option<SaveRequest>): (r: Result<Normalised, SaveError>)
    ensures r == Failure(NameRequired) <==> body.None? || body.value.name.None?
    ensures r == Failure(InvalidNameLength) <==>
              body.Some? && body.value.name.Some? && !(1 <= |Strip(body.value.name.value)| <= MaxNameLength)
    ensures r.Success? ==>
              && var req := body.value;
              && r.value.name == Strip(req.name.value)
              && 1 <= |r.value.name| <= MaxNameLength
              && r.value.layout in {1, 2}
              && (req.layout.GetOr(1) in {1, 2} ==> r.value.layout == req.layout.GetOr(1))
              && (req.layout.GetOr(1) !in {1, 2} ==> r.value.layout == 1)
              && r.value.timeframe in AllowedTimeframes
              && (req.timeframe.GetOr(DefaultTimeframe) in AllowedTimeframes ==>
                    r.value.timeframe == req.timeframe.GetOr(DefaultTimeframe))
              && (req.timeframe.GetOr(DefaultTimeframe) !in AllowedTimeframes ==>
                    r.value.timeframe == DefaultTimeframe)
              && r.value.instruments == SaveInstruments(InstrumentsOf(req.instruments))
  {
    if body.None? || body.value.name.None? then Failure(NameRequired)
    else
      var req := body.value;
      var name := Strip(req.name.value);
      if |name| == 0 || |name| > MaxNameLength then Failure(InvalidNameLength)
      else
        var layout := req.layout.GetOr(1);
        var timeframe := req.timeframe.GetOr(DefaultTimeframe);
        Success(Normalised(
          name,
          if layout in [1, 2] then layout else 1,
          SaveInstruments(InstrumentsOf(req.instruments)),
          if timeframe in AllowedTimeframes then timeframe else DefaultTimeframe))
  }

  /** Submitting a normalised record again stores the same name, layout and timeframe. */
  lemma NormaliseSaveIdempotent(body: Option<SaveRequest>, instruments: Option<InstrumentsValue>)
    requires NormaliseSave(body).Success?
    ensures var n := NormaliseSave(body).value;
            var again := NormaliseSave(Some(SaveRequest(Some(n.name), Some(n.layout), instruments, Some(n.timeframe))));
            && again.Success?
            && again.value.name == n.name && again.value.layout == n.layout && again.value.timeframe == n.timeframe
  {
    StripIdempotent(body.value.name.value);
  }

  // ---------------------------------------------------------------------
  // loading

  /** A stored row of `saved_drawings` (its JSON and date columns are left out). */
  datatype StoredDrawing = StoredDrawing(id: int, name: string, layout: int, instruments: Option<string>,
                                         timeframe: string)

  /** `row['instruments'].split(',') if row['instruments'] else []`: NULL and "" both give []. */
  function LoadInstruments(stored: Option<string>): (r: seq<string>)
    ensures stored.None? || stored.value == "" <==> r == []
  {
    if stored.None? || stored.value == "" then [] else Split(stored.value, Separator)
  }

  /**
   * Saving a list of instruments and loading it back gives the list exactly
   * when no element holds a comma and the list is not `[""]`.
   */
  lemma InstrumentsRoundTrip(xs: seq<string>)
    ensures LoadInstruments(Some(SaveInstruments(xs))) == xs <==>
              (forall e :: e in xs ==> Separator !in e) && xs != [""]
  {
    var s := SaveInstruments(xs);
    JoinIsEmpty(xs, [Separator]);
    if (forall e :: e in xs ==> Separator !in e) && xs != [""] {
      if |xs| >= 1 {
        SplitJoin(xs, Separator);
      }
    }
    if LoadInstruments(Some(s)) == xs {
      forall e | e in xs ensures Separator !in e {
        var i :| 0 <= i < |xs| && xs[i] == e;
        JoinCountsSeparators(xs, Separator, i);
        SplitLength(s, Separator);
      }
    }
  }

  datatype DrawingError = InvalidId | NotFound

  /** What `get_drawing` returns besides the stored JSON and dates. */
  datatype LoadedDrawing = LoadedDrawing(id: int, name: string, layout: int, instruments: seq<string>,
                                         timeframe: string)

  /**
   * `get_drawing`: ids at or below zero are refused before any query; `row`
   * is what `SELECT ... WHERE id = ?` fetched.
   */
  function GetDrawing(id: int, row: Option<StoredDrawing>): (r: Result<LoadedDrawing, DrawingError>)
    ensures r == Failure(InvalidId) <==> id <= 0
    ensures r == Failure(NotFound) <==> id > 0 && row.None?
    ensures r.Success? ==>
              && r.value.instruments == LoadInstruments(row.value.instruments)
              && r.value.id == row.value.id && r.value.name == row.value.name
              && r.value.layout == row.value.layout && r.value.timeframe == row.value.timeframe
  {
    if id <= 0 then Failure(InvalidId)
    else if row.None? then Failure(NotFound)
    else
      var d := row.value;
      Success(LoadedDrawing(d.id, d.name, d.layout, LoadInstruments(d.instruments), d.timeframe))
  }

  /** The row a normalised save writes. */
  function StoredRow(id: int, n: Normalised): StoredDrawing {
    StoredDrawing(id, n.name, n.layout, Some(n.instruments), n.timeframe)
  }

  /**
   * Saving and then fetching the new row gives the stripped name, the
   * normalised layout and timeframe, and the submitted instrument list
   * whenever no element holds a comma and the list is not `[""]`.
   */
  lemma SaveThenGet(body: Option<SaveRequest>, id: int)
    requires id > 0 && NormaliseSave(body).Success?
    ensures var n := NormaliseSave(body).value;
            var xs := InstrumentsOf(body.value.instruments);
            var got := GetDrawing(id, Some(StoredRow(id, n)));
            && got.Success?
            && got.value.name == n.name && got.value.layout == n.layout && got.value.timeframe == n.timeframe
            && (got.value.instruments == xs <==> (forall e :: e in xs ==> Separator !in e) && xs != [""])
  {
    InstrumentsRoundTrip(InstrumentsOf(body.value.instruments));
  }

  datatype DeleteOutcome = Deleted | DeleteInvalidId | DeleteNotFound

  /**
   * `delete_drawing`: ids at or below zero are refused before any statement
   * runs; otherwise `rowcount` is the number of rows the DELETE removed.
   */
  function DeleteDrawing(id: int, rowcount: nat): (r: DeleteOutcome)
    ensures r == DeleteInvalidId <==> id <= 0
    ensures r == DeleteNotFound <==> id > 0 && rowcount == 0
    ensures r == Deleted <==> id > 0 && rowcount > 0
  {
    if id <= 0 then DeleteInvalidId else if rowcount == 0 then DeleteNotFound else Deleted
  }

  // ---------------------------------------------------------------------
  // pagination

  const MaxPerPage: int := 100

  /** `max(1, page)` */
  function PageNumber(requested: int): (r: int)
    ensures r >= 1 && (requested >= 1 ==> r == requested) && (requested < 1 ==> r == 1)
  {
    if requested < 1 then 1 else requested
  }

  /** `min(per_page, 100)`: bounded only from above. */
  function PerPage(requested: int): (r: int)
    ensures r <= MaxPerPage && (requested <= MaxPerPage ==> r == requested)
    ensures requested > MaxPerPage ==> r == MaxPerPage
  {
    if requested < MaxPerPage then requested else MaxPerPage
  }

  /** `(page - 1) * per_page` */
  function Offset(page: int, perPage: int): int { (page - 1) * perPage }

  /** Python's `//`: division rounding toward negative infinity. */
  function FloorDiv(a: int, b: int): (q: int)
    requires b != 0
    ensures b > 0 ==> q * b <= a < q * b + b
    ensures b < 0 ==> q * b >= a > q * b + b
  {
    if b > 0 then a / b else (-a) / (-b)
  }

  /** `(total + per_page - 1) // per_page`; a zero `per_page` raises ZeroDivisionError. */
  function PageCount(total: nat, perPage: int): Option<int> {
    if perPage == 0 then None else Some(FloorDiv(total + perPage - 1, perPage))
  }

  /** With at least one drawing per page, the page count is the ceiling of total / per_page. */
  lemma PageCountIsCeiling(total: nat, perPage: int)
    requires perPage >= 1
    ensures PageCount(total, perPage).Some?
    ensures var c := PageCount(total, perPage).value;
            c >= 0 && total <= c * perPage && (c - 1) * perPage < total
  {
    var c := PageCount(total, perPage).value;
    assert c * perPage <= total + perPage - 1 < c * perPage + perPage;
    assert (c - 1) * perPage == c * perPage - perPage;
  }

  /** The rows of one page: `LIMIT per_page OFFSET (page - 1) * per_page`. */
  function Page<T>(rows: seq<T>, page: int, perPage: int): seq<T> {
    SqlLimitOffset(rows, perPage, Offset(page, perPage))
  }

  function Min(a: int, b: int): int { if a < b then a else b }

  /** With 1 <= per_page, page p is the slice from (p-1)*per_page to p*per_page, cut at the end. */
  lemma PageSlice<T>(rows: seq<T>, page: int, perPage: int)
    requires page >= 1 && perPage >= 1
    ensures var lo := Min(Offset(page, perPage), |rows|);
            var hi := Min(page * perPage, |rows|);
            lo <= hi && Page(rows, page, perPage) == rows[lo..hi]
  {
    MulMonotone(0, page - 1, perPage);
    assert Offset(page, perPage) + perPage == page * perPage;
  }

  /** Pages 1..n, one after the other. */
  function Pages<T>(rows: seq<T>, perPage: int, n: nat): seq<T>
    decreases n
  {
    if n == 0 then [] else Pages(rows, perPage, n - 1) + Page(rows, n, perPage)
  }

  lemma {:induction false} PagesArePrefix<T>(rows: seq<T>, perPage: int, n: nat)
    requires perPage >= 1
    ensures Pages(rows, perPage, n) == rows[..Min(n * perPage, |rows|)]
    decreases n
  {
    if n > 0 {
      PagesArePrefix(rows, perPage, n - 1);
      PageSlice(rows, n, perPage);
      assert Offset(n, perPage) == (n - 1) * perPage;
      var a, b := Min((n - 1) * perPage, |rows|), Min(n * perPage, |rows|);
      assert rows[..a] + rows[a..b] == rows[..b];
    }
  }

  /**
   * With 1 <= per_page <= 100, the pages 1..pages hold every drawing once,
   * in order, at most per_page each, and every later page is empty.
   */
  lemma PagesPartition<T>(rows: seq<T>, perPage: int)
    requires 1 <= perPage <= MaxPerPage
    ensures PerPage(perPage) == perPage
    ensures var c := PageCount(|rows|, perPage).value;
            && c >= 0
            && Pages(rows, perPage, c) == rows
            && (forall p :: 1 <= p ==> |Page(rows, p, perPage)| <= perPage)
            && (forall p :: p > c ==> Page(rows, p, perPage) == [])
  {
    var c := PageCount(|rows|, perPage).value;
    PageCountIsCeiling(|rows|, perPage);
    assert Pages(rows, perPage, c) == rows by {
      PagesArePrefix(rows, perPage, c);
      assert Min(c * perPage, |rows|) == |rows|;
    }
    forall p | 1 <= p ensures |Page(rows, p, perPage)| <= perPage {
      PageSlice(rows, p, perPage);
    }
    forall p | p > c ensures Page(rows, p, perPage) == [] {
      MulMonotone(c, p - 1, perPage);
      assert Offset(p, perPage) >= |rows|;
    }
  }

  /** One entry of the `drawings` list: the row without its JSON and dates. */
  datatype DrawingSummary = DrawingSummary(id: int, name: string, layout: int, instruments: Option<string>,
                                           timeframe: string)

  function Summary(d: StoredDrawing): DrawingSummary {
    DrawingSummary(d.id, d.name, d.layout, d.instruments, d.timeframe)
  }

  datatype Listing = Listing(drawings: seq<DrawingSummary>, page: int, perPage: int, total: nat, pages: int)

  datatype ListError = DivisionByZero

  /**
   * `get_saved_drawings` over the table listed by `created_at` descending:
   * one page of summaries plus the pagination block, or the division by
   * zero that `per_page = 0` causes.
   */
  method GetSavedDrawings(table: seq<StoredDrawing>, pageArg: int, perPageArg: int)
      returns (r: Result<Listing, ListError>)
    ensures r.Failure? <==> PerPage(perPageArg) == 0
    ensures r.Success? ==>
              var page, perPage := PageNumber(pageArg), PerPage(perPageArg);
              var rows := Page(table, page, perPage);
              && r.value.page == page && r.value.perPage == perPage && r.value.total == |table|
              && Some(r.value.pages) == PageCount(|table|, perPage)
              && |r.value.drawings| == |rows|
              && forall i :: 0 <= i < |rows| ==> r.value.drawings[i] == Summary(rows[i])
  {
    var page := PageNumber(pageArg);
    var perPage := PerPage(perPageArg);
    var offset := Offset(page, perPage);
    var total := |table|;
    var rows := SqlLimitOffset(table, perPage, offset);
    var drawings: seq<DrawingSummary> := [];
    for i := 0 to |rows|
      invariant |drawings| == i
      invariant forall j :: 0 <= j < i ==> drawings[j] == Summary(rows[j])
    {
      drawings := drawings + [Summary(rows[i])];
    }
    if perPage == 0 {
      return Failure(DivisionByZero);
    }
    r := Success(Listing(drawings, page, perPage, total, FloorDiv(total + perPage - 1, perPage)));
  }

  /**
   * `per_page` is never raised to 1: `per_page=-1` survives the cap, SQLite
   * reads `LIMIT -1` as no limit and the negative offset as 0, so one page
   * returns every drawing however many there are.
   */
  lemma NegativePerPageIsUncapped<T>(rows: seq<T>, pageArg: int)
    ensures PerPage(-1) == -1
    ensures Page(rows, PageNumber(pageArg), -1) == rows
  {
    var page := PageNumber(pageArg);
    assert Offset(page, -1) == 1 - page <= 0;
    assert rows[0..] == rows;
  }

  /** With `per_page=-1` the reported page count `(total - 2) // -1` is `2 - total`, negative past two drawings. */
  lemma NegativePerPageCount(total: nat)
    ensures PerPage(-1) == -1
    ensures PageCount(total, -1) == Some(2 - total)
  {
    var a := total + -1 - 1;
    assert FloorDiv(a, -1) == (-a) / 1 == -a;
  }

  /** `per_page` as evidently intended: forced into 1..100. */
  function CorrectedPerPage(requested: int): (r: int)
    ensures 1 <= r <= MaxPerPage
    ensures 1 <= requested <= MaxPerPage ==> r == requested
  {
    if requested < 1 then 1 else PerPage(requested)
  }

  /** With the corrected bound every request is paged: no division by zero and no page over 100. */
  lemma CorrectedPerPagePartitions<T>(rows: seq<T>, perPageArg: int)
    ensures var perPage := CorrectedPerPage(perPageArg);
            var c := PageCount(|rows|, perPage);
            && c.Some? && Pages(rows, perPage, c.value) == rows
            && forall p :: 1 <= p ==> |Page(rows, p, perPage)| <= MaxPerPage
  {
    PagesPartition(rows, CorrectedPerPage(perPageArg));
  }
}
