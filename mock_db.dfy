/**
 * The in-memory file table (src/lib/mock-db.ts): a table of uploaded-file
 * records that uploads append to and downloads update in place, with
 * look-up by id, query by guest code and a scan for download statistics.
 */
module MockDb {
  import opened Types
  import opened JsString
  import opened DownloadCounts

  // ---------------------------------------------------------------------------
  // Look-up by id

  /** `findIndex(f => f.id === id)`: the first position holding `id`, or -1. */
  function IndexOfId(files: seq<UploadedFile>, id: string): (r: int)
    ensures -1 <= r < |files|
    ensures r == -1 <==> forall i :: 0 <= i < |files| ==> files[i].id != id
    ensures r >= 0 ==> files[r].id == id && forall j :: 0 <= j < r ==> files[j].id != id
  {
    if files == [] then -1
    else if files[0].id == id then 0
    else
      var k := IndexOfId(files[1..], id);
      if k == -1 then -1 else k + 1
  }

  /** `findFileById`: the first record with that id, or nothing. */
  function FindFileById(files: seq<UploadedFile>, id: string): (r: Option<UploadedFile>)
    ensures r.None? <==> IndexOfId(files, id) == -1
    ensures r.Some? ==> r.value == files[IndexOfId(files, id)]
  {
    if files == [] then None
    else if files[0].id == id then Some(files[0])
    else FindFileById(files[1..], id)
  }

  /** Appending a record leaves every earlier look-up as it was, and finds the new record by a fresh id. */
  lemma FindAfterAppend(files: seq<UploadedFile>, f: UploadedFile, id: string)
    ensures FindFileById(files + [f], id) ==
      if FindFileById(files, id).Some? then FindFileById(files, id)
      else if f.id == id then Some(f) else None
  {
    var k := IndexOfId(files + [f], id);
    assert forall i :: 0 <= i < |files| ==> (files + [f])[i] == files[i];
    if IndexOfId(files, id) == -1 {
      if f.id == id {
        assert (files + [f])[|files|] == f;
        assert k == |files|;
      } else {
        assert k == -1;
      }
    } else {
      assert k == IndexOfId(files, id);
    }
  }

  // ---------------------------------------------------------------------------
  // Query by guest code

  /** `filter(file => file.guestCode === code)`, keeping the table's order. */
  function FilterByGuestCode(files: seq<UploadedFile>, code: string): (r: seq<UploadedFile>)
    ensures |r| <= |files|
    ensures forall f :: multiset(r)[f] == if f.guestCode == code then multiset(files)[f] else 0
  {
    if files == [] then []
    else
      var rest := FilterByGuestCode(files[1..], code);
      assert files == [files[0]] + files[1..];
      if files[0].guestCode == code then [files[0]] + rest else rest
  }

  /** Newest upload first: upload dates never increase along the sequence. */
  predicate NewestFirst(s: seq<UploadedFile>) {
    forall i, j :: 0 <= i < j < |s| ==> s[i].uploadDate >= s[j].uploadDate
  }

  /** Places `f` before the first record that is not newer than it. */
  function InsertNewestFirst(f: UploadedFile, sorted: seq<UploadedFile>): (r: seq<UploadedFile>)
    requires NewestFirst(sorted)
    ensures NewestFirst(r)
    ensures multiset(r) == multiset(sorted) + multiset{f}
    ensures r != [] && (r[0] == f || (sorted != [] && r[0] == sorted[0]))
  {
    if sorted == [] || f.uploadDate >= sorted[0].uploadDate then
      ConsNewestFirst(f, sorted);
      [f] + sorted
    else
      var rest := InsertNewestFirst(f, sorted[1..]);
      assert sorted == [sorted[0]] + sorted[1..];
      assert rest[0].uploadDate <= sorted[0].uploadDate;
      ConsNewestFirst(sorted[0], rest);
      assert multiset([sorted[0]] + rest) == multiset{sorted[0]} + multiset(rest);
      [sorted[0]] + rest
  }

  /** A record no older than the head of a newest-first sequence can go in front of it. */
  lemma ConsNewestFirst(x: UploadedFile, s: seq<UploadedFile>)
    requires NewestFirst(s)
    requires s != [] ==> s[0].uploadDate <= x.uploadDate
    ensures NewestFirst([x] + s)
  {
    var r := [x] + s;
    forall i, j | 0 <= i < j < |r|
      ensures r[i].uploadDate >= r[j].uploadDate
    {
      if i == 0 {
        assert r[j] == s[j - 1];
      } else {
        assert r[i] == s[i - 1] && r[j] == s[j - 1];
      }
    }
  }

  /**
   * `sort((a, b) => date(b) - date(a))`: the records ordered newest first.
   * Records with equal dates keep their relative order, as in the stable
   * `Array.prototype.sort`.
   */
  function SortNewestFirst(s: seq<UploadedFile>): (r: seq<UploadedFile>)
    ensures NewestFirst(r)
    ensures multiset(r) == multiset(s)
  {
    if s == [] then []
    else
      assert s == [s[0]] + s[1..];
      InsertNewestFirst(s[0], SortNewestFirst(s[1..]))
  }

  /**
   * `getFilesByGuestCodeFromDb`: nothing for a blank code; otherwise the
   * records whose stored code equals the lower-cased query, newest first.
   */
  function FilesByGuestCode(files: seq<UploadedFile>, code: string): (r: seq<UploadedFile>)
    ensures IsBlank(code) ==> r == []
    ensures !IsBlank(code) ==> multiset(r) == multiset(FilterByGuestCode(files, Lower(code)))
    ensures NewestFirst(r)
    ensures forall f :: (multiset(r)[f] ==
      if !IsBlank(code) && f.guestCode == Lower(code) then multiset(files)[f] else 0)
  {
    if IsBlank(code) then []
    else SortNewestFirst(FilterByGuestCode(files, Lower(code)))
  }

  /** A record is in a query's answer exactly when its stored code is the lower-cased, non-blank query. */
  lemma InQueryIff(files: seq<UploadedFile>, code: string, f: UploadedFile)
    ensures f in FilesByGuestCode(files, code) <==>
      !IsBlank(code) && f in files && f.guestCode == Lower(code)
  {
    var r := FilesByGuestCode(files, code);
    assert f in r <==> multiset(r)[f] > 0;
    assert f in files <==> multiset(files)[f] > 0;
  }

  /** Queries that differ only in letter case give the same answer. */
  lemma QueryIgnoresCase(files: seq<UploadedFile>, a: string, b: string)
    requires Lower(a) == Lower(b)
    ensures FilesByGuestCode(files, a) == FilesByGuestCode(files, b)
  {
    LowerKeepsBlank(a);
    LowerKeepsBlank(b);
  }

  // ---------------------------------------------------------------------------
  // Downloads and statistics

  /** The timestamps of a record; an absent list counts as empty. */
  function StampsOf(f: UploadedFile): seq<Timestamp> {
    match f.downloadTimestamps
    case None => []
    case Some(s) => s
  }

  /** The record after one download at `now`: a missing list is started, then `now` is appended. */
  function WithDownload(f: UploadedFile, now: int): (r: UploadedFile)
    ensures r.downloadTimestamps.Some? && StampsOf(r) == StampsOf(f) + [Iso(now)]
    ensures r.(downloadTimestamps := f.downloadTimestamps) == f
  {
    f.(downloadTimestamps := Some(StampsOf(f) + [Iso(now)]))
  }

  /** The counters after the nested scan of `getDownloadStatsFromDb`, file by file. */
  function TallyFiles(files: seq<UploadedFile>, now: int): StatsData {
    if files == [] then Zero
    else Plus(TallyFiles(files[..|files| - 1], now), Tally(StampsOf(files[|files| - 1]), now))
  }

  /** Scanning one more record adds that record's tally. */
  lemma TallyFilesSnoc(files: seq<UploadedFile>, i: nat, now: int)
    requires i < |files|
    ensures TallyFiles(files[..i + 1], now) == Plus(TallyFiles(files[..i], now), Tally(StampsOf(files[i]), now))
  {
    assert files[..i + 1][..i] == files[..i];
  }

  /** Every timestamp of the table, file after file. */
  function AllStamps(files: seq<UploadedFile>): seq<Timestamp> {
    if files == [] then [] else AllStamps(files[..|files| - 1]) + StampsOf(files[|files| - 1])
  }

  /** The nested scan counts the same as one flat scan over all timestamps. */
  lemma {:induction false} TallyFilesIsFlatTally(files: seq<UploadedFile>, now: int)
    ensures TallyFiles(files, now) == Tally(AllStamps(files), now)
  {
    if files != [] {
      var n := |files| - 1;
      TallyFilesIsFlatTally(files[..n], now);
      TallyConcat(AllStamps(files[..n]), StampsOf(files[n]), now);
    }
  }

  /** The table's counts: today <= this week <= the number of recorded downloads. */
  lemma StatsBounds(files: seq<UploadedFile>, now: int)
    ensures TallyFiles(files, now).today <= TallyFiles(files, now).thisWeek <= |AllStamps(files)|
  {
    TallyFilesIsFlatTally(files, now);
    TallyBounds(AllStamps(files), now);
  }

  /** Replacing one record changes the table's counts by the change in that record's counts. */
  lemma {:induction false} TallyFilesUpdate(files: seq<UploadedFile>, i: nat, g: UploadedFile, d: StatsData, now: int)
    requires i < |files|
    requires Tally(StampsOf(g), now) == Plus(Tally(StampsOf(files[i]), now), d)
    ensures TallyFiles(files[i := g], now) == Plus(TallyFiles(files, now), d)
  {
    var n := |files| - 1;
    if i < n {
      TallyFilesUpdate(files[..n], i, g, d, now);
      UpdateBeforeLast(files, i, g, d, now);
    } else {
      UpdateLast(files, i, g, d, now);
    }
  }

  /** The step of `TallyFilesUpdate` for a record before the last one. */
  lemma UpdateBeforeLast(files: seq<UploadedFile>, i: nat, g: UploadedFile, d: StatsData, now: int)
    requires i < |files| - 1
    requires TallyFiles(files[..|files| - 1][i := g], now) == Plus(TallyFiles(files[..|files| - 1], now), d)
    ensures TallyFiles(files[i := g], now) == Plus(TallyFiles(files, now), d)
  {
    var n := |files| - 1;
    var u := files[i := g];
    assert u[..n] == files[..n][i := g];
    assert u[n] == files[n];
    assert TallyFiles(u, now) == Plus(TallyFiles(u[..n], now), Tally(StampsOf(files[n]), now));
  }

  /** The case of `TallyFilesUpdate` where the last record is replaced. */
  lemma UpdateLast(files: seq<UploadedFile>, i: nat, g: UploadedFile, d: StatsData, now: int)
    requires i == |files| - 1
    requires Tally(StampsOf(g), now) == Plus(Tally(StampsOf(files[i]), now), d)
    ensures TallyFiles(files[i := g], now) == Plus(TallyFiles(files, now), d)
  {
    var n := i;
    var u := files[n := g];
    assert u[..n] == files[..n];
    assert u[n] == g;
  }

  /** One recorded download at `now` adds exactly one to today and one to this week. */
  lemma DownloadAddsOneToday(files: seq<UploadedFile>, i: nat, now: int)
    requires i < |files|
    ensures TallyFiles(files[i := WithDownload(files[i], now)], now) ==
      Plus(TallyFiles(files, now), StatsData(1, 1))
  {
    var f := files[i];
    var g := WithDownload(f, now);
    var s := StampsOf(f);
    assert s + [Iso(now)] != [] && (s + [Iso(now)])[..|s|] == s;
    assert Tally(StampsOf(g), now) == Plus(Tally(s, now), StatsData(1, 1));
    TallyFilesUpdate(files, i, g, StatsData(1, 1), now);
  }

  /** Appending a record without downloads leaves the counts as they were. */
  lemma AppendFreshKeepsStats(files: seq<UploadedFile>, f: UploadedFile, now: int)
    requires StampsOf(f) == []
    ensures TallyFiles(files + [f], now) == TallyFiles(files, now)
  {
    var u := files + [f];
    assert u[..|u| - 1] == files;
    assert u[|u| - 1] == f;
    assert TallyFiles(u, now) == Plus(TallyFiles(files, now), Tally([], now));
  }

  /**
   * The outer per-record callback of the scan: a record without a timestamp
   * list is passed over, otherwise each of its timestamps is counted.
   */
  method CountFile(f: UploadedFile, now: int, today: nat, thisWeek: nat)
    returns (today': nat, thisWeek': nat)
    ensures today' == today + Tally(StampsOf(f), now).today
    ensures thisWeek' == thisWeek + Tally(StampsOf(f), now).thisWeek
  {
    match f.downloadTimestamps {
      case Some(stamps) =>
        today', thisWeek' := CountTimestamps(stamps, now, today, thisWeek);
      case None =>
        today', thisWeek' := today, thisWeek;
    }
  }

  // ---------------------------------------------------------------------------
  // The table itself

  /** The module-level array `mockFileDatabase`. */
  class FileDatabase {
    var files: seq<UploadedFile>

    constructor ()
      ensures files == []
    {
      files := [];
    }

    /** `addFileToDb`: `push` the record at the end. */
    method AddFile(f: UploadedFile)
      modifies this
      ensures files == old(files) + [f]
    {
      files := files + [f];
    }

    /**
     * `recordFileDownloadInDb`: false for an unknown id, with the table
     * unchanged; otherwise the first record with the id gets `now` appended
     * to its timestamps and nothing else changes.
     */
    method RecordDownload(id: string, now: int) returns (ok: bool)
      modifies this
      ensures ok <==> exists i :: 0 <= i < |old(files)| && old(files)[i].id == id
      ensures !ok ==> files == old(files)
      ensures ok ==> var i := IndexOfId(old(files), id);
        files == old(files)[i := WithDownload(old(files)[i], now)]
    {
      var i := IndexOfId(files, id);
      if i == -1 {
        return false;
      }
      if files[i].downloadTimestamps.None? {
        files := files[i := files[i].(downloadTimestamps := Some([]))];
      }
      files := files[i := files[i].(downloadTimestamps := Some(files[i].downloadTimestamps.value + [Iso(now)]))];
      ok := true;
    }

    /** `getDownloadStatsFromDb`: a read-only scan of every record's timestamps. */
    method DownloadStats(now: int) returns (stats: StatsData)
      ensures stats == TallyFiles(files, now)
      ensures stats.today <= stats.thisWeek
    {
      var todayCount: nat, thisWeekCount: nat := 0, 0;
      var table := files;
      var i := 0;
      while i < |table|
        invariant 0 <= i <= |table|
        invariant StatsData(todayCount, thisWeekCount) == TallyFiles(table[..i], now)
      {
        todayCount, thisWeekCount := CountFile(table[i], now, todayCount, thisWeekCount);
        TallyFilesSnoc(table, i, now);
        i := i + 1;
      }
      assert table[..i] == table;
      stats := StatsData(todayCount, thisWeekCount);
      StatsBounds(files, now);
    }
  }
}
