# Guest-code file drop: a Dafny model

This project models the server-side core of a small file-drop web application.
A visitor uploads a document under a short guest code. Anyone who knows the code
can later list and download the documents filed under it. A stats card shows how
many downloads happened today and this week.

The core has three parts:

- **The in-memory file table** (`src/lib/mock-db.ts`). It is a module-level array
  of uploaded-file records. Uploads append to it, and a recorded download
  appends a timestamp to one record in place. It can be searched by id and
  queried by guest code (blank codes give nothing, codes are lower-cased, results
  come newest first). A read-only scan buckets every download timestamp into
  "today" and "this week" (weeks start on Monday). It is modelled as the class
  `MockDb.FileDatabase`, whose `files` field is the array. The expression-style
  find, filter and sort become functions over that sequence.
- **The server actions** (`src/lib/actions.ts`). They cover:
  - the upload schema: guest code of 3–20 characters from `[A-Za-z0-9_.-]`; file
    non-empty, at most 2 MiB, with one of seven MIME types;
  - the upload handler, which builds the stored record: lower-cased code, empty
    download list, `/api/download/<id>` URL, base64 content;
  - the loop that turns the file's bytes into a binary string for `btoa`;
  - the thin wrappers over the table.
- **The stats fetcher** (`fetchStatsData` in
  `src/components/paperplane/DownloadStatsDataFetcher.tsx`). It runs the same
  day/week count over the rows a database query returns. A query error, a thrown
  exception or a null data set all give `{today: 0, thisWeek: 0}`. Rows whose
  timestamp column is not an array are skipped.

Modules, one per concern:

| file | module | models |
|---|---|---|
| `types.dfy` | `Types` | the record shapes of `src/types/index.ts`, the `StatsData` shape |
| `js_string.dfy` | `JsString` | `String.prototype.trim` and `toLowerCase` as the query uses them |
| `calendar.dfy` | `Calendar` | `isToday` and `isSameWeek(…, { weekStartsOn: 1 })` as integer arithmetic |
| `download_counts.dfy` | `DownloadCounts` | the per-timestamp counting step shared by both scans |
| `mock_db.dfy` | `MockDb` | the file table |
| `base64.dfy` | `Base64` | `btoa` (base64 as in section 4 of RFC 4648) and its inverse |
| `actions.dfy` | `Actions` | the upload schema and the server actions |
| `stats_fetcher.dfy` | `StatsFetcher` | `fetchStatsData` over a query result |

Inputs that the source reads from the environment are parameters here:
- the current time `now` (milliseconds since the epoch, in local time), read
  by `new Date()` for the upload date and by the stats code;
- the separate `Date.now()` reading that `handleFileUpload` writes into the
  storage path (`clockMillis`, UTC milliseconds since the epoch);
- the random file id;
- the database query's outcome (`StatsFetcher.QueryResult`);
- whether reading the uploaded file's bytes fails (`readFails`).

Timestamps are integers. A stored download timestamp is either `Iso(millis)`, a
string that parses, or `Garbled(text)`, one that does not. Day numbers are the
floor of the instant divided by 86 400 000. Day 0 (1970-01-01) is a Thursday, so
the Monday-start week number is `(day + 3) / 7`.

Two behaviours of the code worth noting:
- A query's results are ordered by upload date non-increasingly, not strictly
  decreasingly. Records with equal dates keep their table order: the sort is
  stable, and so is `MockDb.InsertNewestFirst`. The contract does not state the
  tie order.
- A successful upload returns the whole new record, not only its id.

## Model

| member | source | states |
|---|---|---|
| `MockDb.IndexOfId` | src/lib/mock-db.ts:24 | `findIndex` returns -1 exactly when no record has the id; otherwise the first position holding it |
| `MockDb.FindFileById` | src/lib/mock-db.ts:7-9 | `findFileById` returns nothing exactly when no record has the id, else the record at the first matching position |
| `MockDb.FindAfterAppend` | src/lib/mock-db.ts:7-13 | after an append, every id that was found before still finds the same record; a new id finds only the appended record |
| `MockDb.FileDatabase.constructor` | src/lib/mock-db.ts:5 | the table starts empty |
| `MockDb.FileDatabase.AddFile` | src/lib/mock-db.ts:11-13 | `addFileToDb` appends the record at the end: length grows by one, earlier records unchanged |
| `MockDb.FilterByGuestCode` | src/lib/mock-db.ts:19 | the filter keeps each record with the given stored code as many times as the table holds it, and no other record |
| `MockDb.InsertNewestFirst` | src/lib/mock-db.ts:20 | inserting into a newest-first sequence keeps it newest first and adds exactly the one record |
| `MockDb.SortNewestFirst` | src/lib/mock-db.ts:20 | the sort result is ordered by upload date non-increasingly and is a permutation of its input |
| `MockDb.FilesByGuestCode` | src/lib/mock-db.ts:15-21 | a blank or whitespace-only code gives the empty list; otherwise the result is a permutation of the records stored under the lower-cased code, ordered newest first |
| `MockDb.InQueryIff` | src/lib/mock-db.ts:15-21 | a record is in a query's answer iff the code is not blank and the record is in the table under the lower-cased code |
| `MockDb.QueryIgnoresCase` | src/lib/mock-db.ts:16-19 | two codes that lower-case alike give identical answers |
| `MockDb.WithDownload` | src/lib/mock-db.ts:28-31 | a recorded download starts a missing list and appends `now` to it; every other field is unchanged |
| `MockDb.FileDatabase.RecordDownload` | src/lib/mock-db.ts:23-33 | `recordFileDownloadInDb` returns false on an unknown id and leaves the table unchanged. Otherwise it returns true and replaces only the first matching record, with one timestamp appended. The table length is unchanged |
| `MockDb.CountFile` | src/lib/mock-db.ts:42-58 | the per-record callback adds that record's tally to the counters; a record without a list adds nothing |
| `MockDb.FileDatabase.DownloadStats` | src/lib/mock-db.ts:36-60 | `getDownloadStatsFromDb` is read-only, returns the file-by-file tally, and today never exceeds this week |
| `MockDb.TallyFilesIsFlatTally` | src/lib/mock-db.ts:42-58 | the nested scan counts the same as one scan over all timestamps of the table |
| `MockDb.StatsBounds` | src/lib/mock-db.ts:36-60 | today ≤ this week ≤ the number of recorded download timestamps |
| `MockDb.TallyFilesUpdate` | src/lib/mock-db.ts:42-58 | replacing one record changes the table's counts by exactly the change in that record's counts |
| `MockDb.DownloadAddsOneToday` | src/lib/mock-db.ts:28-31 | one recorded download at `now` raises both today and this week by exactly one |
| `MockDb.AppendFreshKeepsStats` | src/lib/mock-db.ts:11-13 | appending a record without timestamps leaves the counts unchanged |
| `JsString.BlankIffAllWhitespace` | src/lib/mock-db.ts:16 | `!s \|\| s.trim() === ""` holds iff every character is JavaScript whitespace |
| `JsString.Lower` | src/lib/mock-db.ts:19 | lower-casing keeps the length and maps each character on its own: A–Z to a–z, the Kelvin sign to `k`, every other character to itself |
| `JsString.LowerIdempotent` | src/lib/actions.ts:85 | lower-casing a stored (already lower-cased) code changes nothing |
| `JsString.LowerKeepsBlank` | src/lib/mock-db.ts:16-19 | a code is blank iff its lower-cased form is |
| `Calendar.SameDayIffWithinDay` | src/lib/mock-db.ts:47 | "is today" holds iff the instant lies in the day-long window starting at midnight of now's day |
| `Calendar.SameWeekIffWithinMondayWindow` | src/lib/mock-db.ts:50 | "same week, Monday start" holds iff the instant's day is one of the seven days from now's Monday on |
| `Calendar.WeekStartIsMonday` | src/lib/mock-db.ts:50 | the first day of every week is a Monday and the week covers its seven days |
| `Calendar.SameDayImpliesSameWeek` | src/components/paperplane/DownloadStatsDataFetcher.tsx:37-42 | a timestamp of today is also one of this week |
| `Calendar.StaleIsNeitherDayNorWeek` | src/lib/mock-db.ts:47-52 | a timestamp seven or more days before now is neither today nor this week |
| `DownloadCounts.Contribution` | src/lib/mock-db.ts:45-55 | a timestamp adds 1 to today iff it parses and is on now's day, 1 to this week iff it parses and is in now's week, never more |
| `DownloadCounts.CountTimestamp` | src/lib/mock-db.ts:44-56 | the per-timestamp callback raises each counter by exactly that timestamp's contribution; a parse failure leaves both alone |
| `DownloadCounts.CountTimestamps` | src/lib/mock-db.ts:44-56 | the inner `forEach` adds the list's tally to the counters |
| `DownloadCounts.TallyBounds` | src/lib/mock-db.ts:36-60 | over any list, today ≤ this week ≤ the number of timestamps |
| `DownloadCounts.TallyConcat` | src/lib/mock-db.ts:42-58 | counting two lists one after the other adds their counts |
| `DownloadCounts.GarbledSkipped` | src/lib/mock-db.ts:53-55 | an unparsable timestamp is skipped: the rest of the scan counts as if it were absent |
| `DownloadCounts.StaleContributesNothing` | src/lib/mock-db.ts:47-52 | a download seven or more days old adds nothing to either count |
| `DownloadCounts.TallyMonotone` | src/lib/mock-db.ts:31 | one more download never lowers either count |
| `Base64.DigitRoundTrip` | src/lib/actions.ts:54 | each 6-bit value has an alphabet character that reads back as that value |
| `Base64.Btoa` | src/lib/actions.ts:54 | `btoa` output is 4·⌈n/3⌉ characters long, all from the base64 alphabet or `=` |
| `Base64.DecodeBtoa` | src/lib/actions.ts:54 | decoding `btoa` output, as the download route does with `Buffer.from(…, 'base64')`, gives back the original binary string |
| `Actions.GuestCodeCheckErrors` | src/lib/actions.ts:28-31 | no message iff the length is 3–20 and every character is a letter, digit, `_`, `.` or `-`; the messages are exactly those of the failing checks, each once, in schema order (the character check's message last) |
| `Actions.GuestCodeErrors` | src/lib/actions.ts:28-31 | the guest-code field is accepted iff it is a text value meeting the rules above |
| `Actions.FileErrors` | src/lib/actions.ts:15-39 | the file field is accepted iff it is a file of size > 0 and ≤ 2·1024·1024 with an allowed MIME type. A non-file gets only "File is required."; for a file, the messages are exactly those of the failing refinements, each once, in schema order (the type check's message last) |
| `Actions.ValidateUpload` | src/lib/actions.ts:27-40 | validation succeeds iff both fields are accepted and then carries them unchanged; otherwise it yields the field-tagged errors, at least one of them non-empty |
| `Actions.ValidGuestCodeNotBlank` | src/lib/actions.ts:28-31 | an accepted guest code is never blank |
| `Actions.DecimalString` | src/lib/actions.ts:90 | `Date.now()` rendered in the storage path is decimal digits without a leading zero |
| `Actions.DecimalStringValue` | src/lib/actions.ts:90 | the rendered digits read back as the number |
| `Actions.BinaryString` | src/lib/actions.ts:48-53 | the string the loop builds has one character per byte, each with the byte as its code, so every character is below 256 and `btoa` accepts it |
| `Actions.ArrayBufferToBase64` | src/lib/actions.ts:47-55 | the result is `btoa` of the binary string that has one character per byte, with the byte as its code; it has base64 length and decodes to exactly those bytes |
| `Actions.HandleFileUpload` | src/lib/actions.ts:57-112 | validation failure: `success=false`, field errors, table unchanged. Read failure: `success=false`, the `_form` error, table unchanged. Success: exactly one record appended and returned, with lower-cased code, copied name and type, empty timestamps, `/api/download/<id>` URL, storage path `uploads/mock/<code as typed>/<Date.now() digits>-<name>`, and content equal to `btoa` of the uploaded bytes' binary string, which decodes to those bytes; a query with any casing of the code then finds it |
| `Actions.FetchFilesByGuestCode` | src/lib/actions.ts:114-116 | delegates to the table's query and changes nothing |
| `Actions.RecordFileDownload` | src/lib/actions.ts:118-125 | `success=false` with "File not found for recording download." iff no record has the id (table unchanged); otherwise `success=true` and the first matching record gains one timestamp |
| `Actions.GetDownloadStats` | src/lib/actions.ts:127-129 | delegates to the table's read-only scan |
| `Actions.UploadThenFetch` | src/lib/actions.ts:85 | once a record stored under a valid code is in the table, a query with any casing of that code returns it |
| `Actions.UploadKeepsStats` | src/lib/actions.ts:91-95 | a new upload leaves both download counts unchanged |
| `Actions.RecordedDownloadCounts` | src/lib/actions.ts:118-124 | after a successful recorded download at `now`, today and this week are each exactly one higher |
| `StatsFetcher.CountRow` | src/components/paperplane/DownloadStatsDataFetcher.tsx:32-49 | a row whose `download_timestamps` is missing or not an array adds nothing; an array adds its tally |
| `StatsFetcher.ScanRows` | src/components/paperplane/DownloadStatsDataFetcher.tsx:31-50 | the row scan returns the rows' tally, with today ≤ this week ≤ the number of timestamps visited |
| `StatsFetcher.TallyRowsIsFlatTally` | src/components/paperplane/DownloadStatsDataFetcher.tsx:32-49 | the row-by-row scan counts the same as one scan over all array timestamps |
| `StatsFetcher.RowsBounds` | src/components/paperplane/DownloadStatsDataFetcher.tsx:36-42 | today ≤ this week ≤ the number of timestamps |
| `StatsFetcher.TallyRowsConcat` | src/components/paperplane/DownloadStatsDataFetcher.tsx:32-49 | scanning two runs of rows one after the other adds their counts |
| `StatsFetcher.NonArrayRowSkipped` | src/components/paperplane/DownloadStatsDataFetcher.tsx:33 | inserting a row without an array anywhere leaves the counts unchanged |
| `StatsFetcher.FetchStatsData` | src/components/paperplane/DownloadStatsDataFetcher.tsx:11-60 | a query error or a thrown exception gives `{0, 0}`, as does null data; otherwise the tally of all rows, with today ≤ this week |

## Left out

- Rendering is not modelled: the pages, the file list and its items, the stats display and skeleton, the logo, and the client-side form schema, which repeats the server rules except the empty-file check (so the server's "File cannot be empty." path is reachable from the form).
- `DownloadStatsContainer.tsx` is not modelled. It only produces random numbers after a timer.
- The Firebase and Supabase client set-up is not modelled. The Supabase query in the stats fetcher is the input `QueryResult`.
- `revalidatePath` calls, `console` logging and Promise plumbing are not modelled. None of them changes a result.
- The random id (`Math.random().toString(36)…`) and the clock are parameters. Ids are not checked for uniqueness, in the source or in the model; look-ups take the first match.
- ISO-8601 formatting (`toISOString`) and parsing (`parseISO`) are not modelled. An upload date is an integer, and a stored download timestamp is already classified as parsable (`Iso`) or not (`Garbled`).
- `isToday` reads its own clock while `isSameWeek` uses the captured `now`. The model takes one `now` for both, so a scan running across midnight is not captured.
- The local time zone is taken as already applied to `now` and to stored instants. `clockMillis` is a separate UTC reading, so the model does not relate it to `now`: in the source the two readings differ by the zone offset plus the time between them. Daylight-saving days that are not 24 hours long are not captured.
- `fileToArrayBuffer` is the `readFails` parameter; when it is set, the action's catch branch runs. No other step of the upload can throw in the model.
- In the stats fetcher, the only exception the model raises is the query's own (`QueryResult.Threw`). Per-timestamp parse failures are `Garbled` stamps, which are skipped.
- Records are values. In the source, the record object updated by a recorded download is the same object an earlier query returned, so that caller sees the change. That aliasing is not captured.
- `Base64.Decode` models `Buffer.from(…, 'base64')` from the download route only on well-formed `btoa` output. Its leniency on other text (skipped characters, missing padding) is not modelled, and the route itself is not part of this model.
- `JsString.Lower`: models `toLowerCase` on A–Z and on the Kelvin sign U+212A, which becomes `k`. These are the only characters whose lower case is ASCII, so a query code matches a stored (ASCII) code in the model exactly when it does in the source. The other Unicode case mappings are not modelled; that includes mappings that change the length, such as U+0130. Under them a non-ASCII query character either stays non-ASCII or, like U+0130, becomes text that still holds a non-ASCII character, so it cannot match a stored code either way.
- `Actions.GuestCodeCheckErrors`: lengths are counted in code points, while the schema counts UTF-16 units. They differ only for characters outside the Basic Multilingual Plane, which the character check rejects anyway.
- `Actions.NotAStringMessage` gives the validation library's default wording for a non-string guest code. The source does not write that wording itself.
- `MockDb.SortNewestFirst`: the relative order of records with equal upload dates (the stable sort keeps table order) is not stated.
- `getFileIcon` is a presentation detail. `storagePath` is built in full and stored, but nothing in the core reads it.
