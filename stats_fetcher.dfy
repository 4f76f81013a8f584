/**
 * The stats card's server-side fetch (`fetchStatsData` in
 * src/components/paperplane/DownloadStatsDataFetcher.tsx): the
 * `download_timestamps` column of every row of the `files` table, counted
 * into today and this week, with every failure reported as zero counts.
 */
module StatsFetcher {
  import opened Types
  import opened DownloadCounts

  /** A row's `download_timestamps` value: null, something that is not an array, or an array. */
  datatype Column = Null | NotArray | Array(items: seq<Timestamp>)

  /** One row of `select('download_timestamps')`. */
  datatype Row = Row(downloadTimestamps: Column)

  /**
   * What the query gives the fetcher: an error object, the data (which may
   * be null), or an exception thrown while awaiting it.
   */
  datatype QueryResult = QueryError(message: string) | QueryData(rows: Option<seq<Row>>) | Threw

  /** The timestamps a row contributes: only an array is scanned. */
  function RowStamps(row: Row): seq<Timestamp> {
    if row.downloadTimestamps.Array? then row.downloadTimestamps.items else []
  }

  /** The counters after scanning `rows` in order. */
  function TallyRows(rows: seq<Row>, now: int): StatsData {
    if rows == [] then Zero
    else Plus(TallyRows(rows[..|rows| - 1], now), Tally(RowStamps(rows[|rows| - 1]), now))
  }

  /** Every timestamp the scan visits, row after row. */
  function RowsStamps(rows: seq<Row>): seq<Timestamp> {
    if rows == [] then [] else RowsStamps(rows[..|rows| - 1]) + RowStamps(rows[|rows| - 1])
  }

  lemma TallyRowsSnoc(rows: seq<Row>, i: nat, now: int)
    requires i < |rows|
    ensures TallyRows(rows[..i + 1], now) == Plus(TallyRows(rows[..i], now), Tally(RowStamps(rows[i]), now))
  {
    assert rows[..i + 1][..i] == rows[..i];
  }

  /** The row-by-row scan counts the same as one flat scan over all visited timestamps. */
  lemma {:induction false} TallyRowsIsFlatTally(rows: seq<Row>, now: int)
    ensures TallyRows(rows, now) == Tally(RowsStamps(rows), now)
  {
    if rows != [] {
      var n := |rows| - 1;
      TallyRowsIsFlatTally(rows[..n], now);
      TallyConcat(RowsStamps(rows[..n]), RowStamps(rows[n]), now);
    }
  }

  /** Both counts are at most the number of timestamps visited, and today never exceeds this week. */
  lemma RowsBounds(rows: seq<Row>, now: int)
    ensures TallyRows(rows, now).today <= TallyRows(rows, now).thisWeek <= |RowsStamps(rows)|
  {
    TallyRowsIsFlatTally(rows, now);
    TallyBounds(RowsStamps(rows), now);
  }

  /** The rows' timestamps, for two runs of rows one after the other. */
  lemma {:induction false} RowsStampsConcat(a: seq<Row>, b: seq<Row>)
    ensures RowsStamps(a + b) == RowsStamps(a) + RowsStamps(b)
  {
    if b == [] {
      assert a + b == a;
    } else {
      var n := |b| - 1;
      assert (a + b)[..|a + b| - 1] == a + b[..n];
      assert (a + b)[|a + b| - 1] == b[n];
      RowsStampsConcat(a, b[..n]);
    }
  }

  /** Scanning two runs of rows one after the other adds their counts. */
  lemma {:induction false} TallyRowsConcat(a: seq<Row>, b: seq<Row>, now: int)
    ensures TallyRows(a + b, now) == Plus(TallyRows(a, now), TallyRows(b, now))
  {
    TallyRowsIsFlatTally(a + b, now);
    TallyRowsIsFlatTally(a, now);
    TallyRowsIsFlatTally(b, now);
    RowsStampsConcat(a, b);
    TallyConcat(RowsStamps(a), RowsStamps(b), now);
  }

  /** A row whose column is null or not an array changes nothing, wherever it stands. */
  lemma {:induction false} NonArrayRowSkipped(a: seq<Row>, skipped: Row, b: seq<Row>, now: int)
    requires !skipped.downloadTimestamps.Array?
    ensures TallyRows(a + [skipped] + b, now) == TallyRows(a + b, now)
  {
    TallyRowsConcat(a + [skipped], b, now);
    TallyRowsConcat(a, b, now);
  }

  /** The per-row callback: a row without an array of timestamps is passed over. */
  method CountRow(row: Row, now: int, today: nat, thisWeek: nat) returns (today': nat, thisWeek': nat)
    ensures today' == today + Tally(RowStamps(row), now).today
    ensures thisWeek' == thisWeek + Tally(RowStamps(row), now).thisWeek
  {
    match row.downloadTimestamps {
      case Array(items) =>
        today', thisWeek' := CountTimestamps(items, now, today, thisWeek);
      case _ =>
        today', thisWeek' := today, thisWeek;
    }
  }

  /** `allFiles.forEach(...)`: the row-by-row scan from zero counters. */
  method ScanRows(rows: seq<Row>, now: int) returns (today: nat, thisWeek: nat)
    ensures StatsData(today, thisWeek) == TallyRows(rows, now)
    ensures today <= thisWeek <= |RowsStamps(rows)|
  {
    today, thisWeek := 0, 0;
    var i := 0;
    while i < |rows|
      invariant 0 <= i <= |rows|
      invariant StatsData(today, thisWeek) == TallyRows(rows[..i], now)
    {
      today, thisWeek := CountRow(rows[i], now, today, thisWeek);
      TallyRowsSnoc(rows, i, now);
      i := i + 1;
    }
    assert rows[..i] == rows;
    RowsBounds(rows, now);
  }

  /**
   * `fetchStatsData`: zero counts when the query reports an error or throws,
   * and when it returns no data; otherwise the tally of all rows.
   */
  method FetchStatsData(result: QueryResult, now: int) returns (stats: StatsData)
    ensures result.QueryError? || result.Threw? ==> stats == Zero
    ensures result.QueryData? && result.rows.None? ==> stats == Zero
    ensures result.QueryData? && result.rows.Some? ==> stats == TallyRows(result.rows.value, now)
    ensures stats.today <= stats.thisWeek
  {
    var todayCount: nat, thisWeekCount: nat := 0, 0;
    match result {
      case Threw =>
        return StatsData(0, 0);
      case QueryError(_) =>
        return StatsData(0, 0);
      case QueryData(allFiles) =>
        if allFiles.Some? {
          todayCount, thisWeekCount := ScanRows(allFiles.value, now);
        }
    }
    stats := StatsData(todayCount, thisWeekCount);
  }
}
