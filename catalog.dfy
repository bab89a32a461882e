/**
 * Which tables the viewer offers: the table-name check that guards every
 * query built around a table name, the instrument name derived from a
 * table name, and `detect_trading_tables` over the catalogue's metadata.
 */
module Catalog {
  import opened Wrappers
  import opened Text

  // ---------------------------------------------------------------------
  // the table-name check

  /** `table_name.replace('_', '').replace('-', '').isalnum()` */
  predicate ValidTableName(s: string) {
    IsAlnum(Replace(Replace(s, "_", ""), "-", ""))
  }

  predicate AllowedChar(c: char) { IsAlnumChar(c) || c == '_' || c == '-' }

  lemma {:induction false} NonEmptyHasMember(s: string)
    ensures |s| > 0 <==> exists x :: x in s
  {
    if |s| > 0 {
      assert s[0] in s;
    }
  }

  /**
   * A name passes exactly when it consists of ASCII letters, digits, `_` and
   * `-` and has at least one letter or digit.
   */
  lemma ValidTableNameChars(s: string)
    ensures ValidTableName(s) <==>
              && (forall i :: 0 <= i < |s| ==> AllowedChar(s[i]))
              && (exists i :: 0 <= i < |s| && IsAlnumChar(s[i]))
  {
    var r := Replace(Replace(s, "_", ""), "-", "");
    forall x ensures x in r <==> x in s && x != '_' && x != '-' {
      RemoveCharMembership(s, '_', x);
      RemoveCharMembership(Replace(s, "_", ""), '-', x);
    }
    NonEmptyHasMember(r);
    if ValidTableName(s) {
      forall i | 0 <= i < |s| ensures AllowedChar(s[i]) {
        if s[i] != '_' && s[i] != '-' {
          assert s[i] in r;
        }
      }
      var x :| x in r;
      var j :| 0 <= j < |s| && s[j] == x;
      assert IsAlnumChar(s[j]);
    }
    if (forall i :: 0 <= i < |s| ==> AllowedChar(s[i])) && (exists i :: 0 <= i < |s| && IsAlnumChar(s[i])) {
      var j :| 0 <= j < |s| && IsAlnumChar(s[j]);
      assert s[j] in r;
      forall i | 0 <= i < |r| ensures IsAlnumChar(r[i]) {
        assert r[i] in r;
      }
    }
  }

  /**
   * A name that passes has no character that could end the `[...]` quoting
   * or the statement, start a string literal, or separate SQL tokens.
   */
  lemma ValidTableNameIsInert(s: string)
    requires ValidTableName(s)
    ensures forall i :: 0 <= i < |s| ==>
              s[i] != ']' && s[i] != '[' && s[i] != ';' && s[i] != '\'' && s[i] != '"' && !IsSpace(s[i])
  {
    ValidTableNameChars(s);
  }

  /** A name with a character outside letters, digits, `_` and `-` fails. */
  lemma ForeignCharRejected(s: string, i: nat)
    requires i < |s| && !AllowedChar(s[i])
    ensures !ValidTableName(s)
  {
    ValidTableNameChars(s);
  }

  /** A name without any letter or digit fails, even when every character is allowed. */
  lemma NoAlnumRejected(s: string)
    requires forall i :: 0 <= i < |s| ==> !IsAlnumChar(s[i])
    ensures !ValidTableName(s)
  {
    ValidTableNameChars(s);
  }

  /** Names with nothing but separators fail. */
  lemma BlankNamesRejected()
    ensures !ValidTableName("") && !ValidTableName("___") && !ValidTableName("-_-")
  {
    NoAlnumRejected("");
    NoAlnumRejected("___");
    NoAlnumRejected("-_-");
  }

  /** Names that could break out of the `[...]` quoting fail. */
  lemma RejectedNames()
    ensures !ValidTableName("a;b") && !ValidTableName("a]") && !ValidTableName("a b")
  {
    ForeignCharRejected("a;b", 1);
    ForeignCharRejected("a]", 1);
    ForeignCharRejected("a b", 1);
  }

  /** A name of letters, digits, `_` and `-` with a letter or digit at `j` passes. */
  lemma AllowedCharsAccepted(s: string, j: nat)
    requires forall i :: 0 <= i < |s| ==> AllowedChar(s[i])
    requires j < |s| && IsAlnumChar(s[j])
    ensures ValidTableName(s)
  {
    ValidTableNameChars(s);
  }

  lemma AcceptedNames()
    ensures ValidTableName("ES_bars") && ValidTableName("x-1")
  {
    AllowedCharsAccepted("ES_bars", 0);
    AllowedCharsAccepted("x-1", 0);
  }

  // ---------------------------------------------------------------------
  // instrument names

  /** `table_name.replace('_bars', '').replace('_data', '').replace('bars_', '').upper()` */
  function InstrumentName(tableName: string): string {
    Upper(Replace(Replace(Replace(tableName, "_bars", ""), "_data", ""), "bars_", ""))
  }

  /** The derived name never holds a lower-case ASCII letter. */
  lemma InstrumentNameIsUpper(tableName: string)
    ensures forall i :: 0 <= i < |InstrumentName(tableName)| ==> !('a' <= InstrumentName(tableName)[i] <= 'z')
  {
  }

  /** A stem without `_` followed by `_bars` names the instrument `stem.upper()`. */
  lemma BarsSuffixName(stem: string)
    requires '_' !in stem
    ensures InstrumentName(stem + "_bars") == Upper(stem)
  {
    RemoveSuffix(stem, "_bars");
    ReplaceAbsent(stem, "_data", "", '_');
    ReplaceAbsent(stem, "bars_", "", '_');
  }

  /** Likewise for `_data`. */
  lemma DataSuffixName(stem: string)
    requires '_' !in stem
    ensures InstrumentName(stem + "_data") == Upper(stem)
  {
    assert "_data"[1..] == "data" && "_data"[1] != "_bars"[1];
    SuffixWithoutPattern(stem, "_data", "_bars");
    RemoveSuffix(stem, "_data");
    ReplaceAbsent(stem, "bars_", "", '_');
  }

  /**
   * A suffix whose only occurrence of the pattern's first character is its
   * own first character, and which does not start with the pattern, leaves a
   * stem without that character unchanged by `replace`.
   */
  lemma {:induction false} SuffixWithoutPattern(stem: string, suffix: string, pat: string)
    requires |pat| > 0 && |suffix| > 0 && pat[0] !in stem && pat[0] !in suffix[1..]
    requires !StartsWith(suffix, pat)
    ensures Replace(stem + suffix, pat, "") == stem + suffix
    decreases |stem|
  {
    var s := stem + suffix;
    if |stem| == 0 {
      assert s == suffix;
      assert s[1..] == suffix[1..];
      ReplaceAbsent(suffix[1..], pat, "", pat[0]);
      assert s == [s[0]] + s[1..];
    } else {
      assert !StartsWith(s, pat) by { assert s[0] == stem[0]; }
      assert s[1..] == stem[1..] + suffix;
      SuffixWithoutPattern(stem[1..], suffix, pat);
      assert s == [s[0]] + s[1..];
    }
  }

  /** Different tables can share an instrument name. */
  lemma InstrumentNameCollision()
    ensures InstrumentName("es_bars") == InstrumentName("ES_data") == "ES"
  {
    assert "es_bars" == "es" + "_bars";
    assert "ES_data" == "ES" + "_data";
    BarsSuffixName("es");
    DataSuffixName("ES");
    assert Upper("es") == "ES";
    assert Upper("ES") == "ES";
  }

  // ---------------------------------------------------------------------
  // detecting the trading tables

  /**
   * What the catalogue says about one table: its column names and row count,
   * or that one of the two lookups raised a database error.
   */
  datatype TableProbe = Probed(name: string, columns: seq<string>, rowCount: nat) | ProbeFailed(name: string)

  /** One detected table (its display strings are left out). */
  datatype TradingTable = TradingTable(tableName: string, instrument: string, recordCount: nat)

  const RequiredColumns: seq<string> := ["bar_end_datetime", "open_price", "high_price", "low_price", "close_price"]

  function LowerAll(xs: seq<string>): seq<string> {
    seq(|xs|, i requires 0 <= i < |xs| => Lower(xs[i]))
  }

  /** Every required column is among the table's columns, compared in lower case. */
  predicate HasRequiredColumns(columns: seq<string>) {
    forall c :: c in RequiredColumns ==> c in LowerAll(columns)
  }

  /** A table is offered when its lookups succeed, it has the columns and at least one row. */
  predicate Qualifies(p: TableProbe) {
    p.Probed? && HasRequiredColumns(p.columns) && p.rowCount > 0
  }

  function Entry(p: TableProbe): TradingTable
    requires p.Probed?
  {
    TradingTable(p.name, InstrumentName(p.name), p.rowCount)
  }

  /** The entries of the qualifying tables, in catalogue order. */
  function Selected(probes: seq<TableProbe>): (r: seq<TradingTable>)
    ensures forall p :: p in probes && Qualifies(p) ==> Entry(p) in r
    ensures forall t :: t in r ==> exists p :: p in probes && Qualifies(p) && t == Entry(p)
    decreases |probes|
  {
    if |probes| == 0 then []
    else
      var last := probes[|probes| - 1];
      var front := probes[..|probes| - 1];
      assert probes == front + [last];
      Selected(front) + (if Qualifies(last) then [Entry(last)] else [])
  }

  /** Adjacent entries are in order of instrument name. */
  predicate SortedByInstrument(s: seq<TradingTable>) {
    forall i :: 0 < i < |s| ==> StrLe(s[i - 1].instrument, s[i].instrument)
  }

  /** The entries for one instrument name, in the order listed. */
  function WithInstrument(s: seq<TradingTable>, name: string): seq<TradingTable>
    decreases |s|
  {
    if |s| == 0 then []
    else (if s[0].instrument == name then [s[0]] else []) + WithInstrument(s[1..], name)
  }

  /** Insert before the first entry whose instrument is not smaller. */
  function Insert(x: TradingTable, s: seq<TradingTable>): (r: seq<TradingTable>)
    requires SortedByInstrument(s)
    ensures SortedByInstrument(r)
    ensures multiset(r) == multiset(s) + multiset{x}
    ensures |r| > 0 && (r[0] == x || (|s| > 0 && r[0] == s[0]))
    decreases |s|
  {
    if |s| == 0 || StrLe(x.instrument, s[0].instrument) then [x] + s
    else
      StrLeTotal(x.instrument, s[0].instrument);
      var rest := Insert(x, s[1..]);
      assert multiset(s) == multiset{s[0]} + multiset(s[1..]) by { assert s == [s[0]] + s[1..]; }
      [s[0]] + rest
  }

  /**
   * `trading_tables.sort(key=lambda x: x['instrument'])`: ordered by
   * instrument and a permutation of the input.
   */
  function SortTables(s: seq<TradingTable>): (r: seq<TradingTable>)
    ensures SortedByInstrument(r)
    ensures multiset(r) == multiset(s)
    decreases |s|
  {
    if |s| == 0 then []
    else
      assert s == [s[0]] + s[1..];
      Insert(s[0], SortTables(s[1..]))
  }

  lemma StrLeReflexive(a: string)
    ensures StrLe(a, a)
    decreases |a|
  {
    if |a| > 0 {
      StrLeReflexive(a[1..]);
    }
  }

  lemma WithInstrumentCons(y: TradingTable, s: seq<TradingTable>, name: string)
    ensures WithInstrument([y] + s, name) == (if y.instrument == name then [y] else []) + WithInstrument(s, name)
  {
    assert ([y] + s)[1..] == s;
  }

  lemma {:induction false} InsertStable(x: TradingTable, s: seq<TradingTable>, name: string)
    requires SortedByInstrument(s)
    ensures WithInstrument(Insert(x, s), name)
            == (if x.instrument == name then [x] else []) + WithInstrument(s, name)
    decreases |s|
  {
    if |s| == 0 || StrLe(x.instrument, s[0].instrument) {
      WithInstrumentCons(x, s, name);
    } else {
      StrLeReflexive(x.instrument);
      assert s[0].instrument != x.instrument;
      InsertStable(x, s[1..], name);
      assert Insert(x, s) == [s[0]] + Insert(x, s[1..]);
      WithInstrumentCons(s[0], Insert(x, s[1..]), name);
      WithInstrumentCons(s[0], s[1..], name);
      assert s == [s[0]] + s[1..];
    }
  }

  /** The sort is stable: entries with equal instrument keep their catalogue order. */
  lemma {:induction false} SortTablesStable(s: seq<TradingTable>, name: string)
    ensures WithInstrument(SortTables(s), name) == WithInstrument(s, name)
    decreases |s|
  {
    if |s| > 0 {
      SortTablesStable(s[1..], name);
      InsertStable(s[0], SortTables(s[1..]), name);
    }
  }

  /**
   * `detect_trading_tables`: `None` stands for a catalogue that could not be
   * read at all, which gives the empty tuple; otherwise the loop collects the
   * qualifying tables in catalogue order and the result is sorted by
   * instrument.
   */
  method DetectTradingTables(catalog: Option<seq<TableProbe>>) returns (tables: seq<TradingTable>)
    ensures catalog.None? ==> tables == []
    ensures catalog.Some? ==> tables == SortTables(Selected(catalog.value))
  {
    if catalog.None? {
      return [];
    }
    var probes := catalog.value;
    var found: seq<TradingTable> := [];
    for i := 0 to |probes|
      invariant found == Selected(probes[..i])
    {
      var p := probes[i];
      assert probes[..i + 1][..i] == probes[..i];
      if p.ProbeFailed? {
        continue;
      }
      if !HasRequiredColumns(p.columns) {
        continue;
      }
      if p.rowCount == 0 {
        continue;
      }
      found := found + [Entry(p)];
    }
    assert probes[..|probes|] == probes;
    tables := SortTables(found);
  }
}
