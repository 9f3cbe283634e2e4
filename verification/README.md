# SPIMEX trading-results loader, modelled in Dafny

The system downloads the oil-product trading bulletins of the St. Petersburg
International Mercantile Exchange (SPIMEX), reads the trading table out of each
bulletin spreadsheet, stores the rows in a database, and answers queries about
them. A Redis cache sits in front of the "last trading dates" query and is
flushed once a day. This project models the four core components.

- **Spreadsheet row scanner** (`ExcelParser`, `excel_parser.dfy`). A sheet is a
  rectangular frame of cells; a cell is an integer, a text, or empty.
  - `GetStartRow` searches down from row 4 for the unit marker.
  - `GetAllData` walks the data rows up to the "Итого:" row. It skips rows
    whose contract count does not convert or is below 1, and builds one record
    per accepted row.
  - The product codes come from Python slices of the product id. The date is
    the `dd.mm.yyyy` text at the end of cell (2, 1).
  - Both loops are methods proved against specification functions (`StartRow`,
    `Scan`). The lemmas about those functions state ordering, bounds, the skip
    rules and failure.
- **Bulletin fetcher** (`HttpParser`, `http_parser.dfy`).
  - The 64 index-page addresses and the error-to-`None` rule of a page fetch.
  - The link filter: the first 10 entries, kept when their year is after 2022.
    This is a loop method against `KeptLinks`.
  - The page-order concatenation of all links, and the local file name of a
    bulletin.
  - A page is its sequence of (date text, href) entries; `urljoin` is an
    arbitrary function.
- **Cache gateway** (`CacheRepository`, `cache_repository.dfy`). Redis is a map
  from key to payload and expiry second, held in a class whose methods update
  it. The daily flush's next target time is computed on an exact microsecond
  timeline.
- **Query orchestrator** (`Service`, `service.dfy`).
  - Batch-by-batch loading with its running total.
  - The cache-then-database answer for the last trading dates, through the JSON
    array of ISO dates.
  - Two pass-through queries.

The database (`DbRepository`, `db_repository.dfy`) is a class holding the table
as a sequence of records. Its read queries are opaque functions of the table.
Python's text and calendar behaviour that the code relies on lives in the
supporting modules:
- `PyText`: `int()` on a str, `str()` of an int, negative slices, `in` on
  strings.
- `Calendar`: dates and datetimes, `strptime("%d.%m.%Y")`, and `isoformat`/
  `fromisoformat` in the full-date form of section 5.6 of RFC 3339.
- `JsonDates`: the JSON array of strings, per sections 5 and 7 of RFC 8259.

Exceptions become `Err` values naming the Python exception class, with two
exceptions. Redis's refusal of a lifetime that is not positive
(`RedisCache.SetCachedData`) and the database's IntegrityError for a batch that
breaks the check constraint (`Database.CreateDocsBulk`) are reported as
`ok == false`, with nothing changed. At their only call sites the model proves
that neither can happen: the orchestrator passes the 60-second lifetime and only
parsed batches, which all pass the check. The clock is a parameter, and so are
the fetched pages and the spreadsheet frames.

In these places the code does less than a reader might expect, and the model
follows the code:
- One failing bulletin fails the whole `parse_all_excel_files`, because
  `gather` is called without `return_exceptions`.
- One failed index page fails the whole download, because `BeautifulSoup(None)`
  raises TypeError.
- The bulletin date is parsed only when a row is accepted, so a file with no
  accepted rows never parses it.
- `get_all_trading_dates`, `get_dynamics` and `get_trading_results` are called
  by the orchestrator but defined in no repository class. The model keeps them
  as opaque queries of the table.

## Model

| member | source | states |
|---|---|---|
| `Common.Take` | app/core/services/http_parser.py:53 | `xs[:n]` is the prefix of length min(n, len(xs)) |
| `PyText.LastN` | app/core/services/excel_parser.py:24 | `s[-n:]` is a suffix of `s`: of length min(n, len(s)) for n >= 1, and all of `s` for n = 0 (as `-0` is `0`) |
| `PyText.Decimal` | app/core/services/http_parser.py:22 | `str(n)` of a non-negative int is a non-empty run of digits with no leading zero |
| `PyText.DecimalValue` | app/core/services/http_parser.py:22 | the digits of `str(n)` have the value n |
| `PyText.ParseIntDecimal` | app/core/services/http_parser.py:22 | `int(str(n)) == n` |
| `PyText.DecimalInjective` | app/core/services/http_parser.py:22 | distinct page numbers give distinct texts |
| `PyText.UnsignedDigits` | app/core/services/excel_parser.py:47 | the unsigned part of `int()` accepts exactly the non-empty digit runs, with their decimal value |
| `PyText.ParseIntSyntax` | app/core/services/excel_parser.py:47 | `int(s)` accepts exactly the stripped texts made of an optional sign and a non-empty digit run, and gives their signed decimal value |
| `PyText.ContainsAt` | app/core/services/excel_parser.py:42 | `sub in s` holds iff `sub` occurs in `s` at some position |
| `PyText.TrimStartIsSuffix` | app/core/services/excel_parser.py:47 | `lstrip` removes exactly a run of leading whitespace |
| `PyText.TrimEndIsPrefix` | app/core/services/excel_parser.py:47 | `rstrip` removes exactly a run of trailing whitespace |
| `PyText.PaddedValue` | app/core/services/service.py:58 | zero-padded digits of n read back as n when n fits the width |
| `PyText.PaddedOfDigits` | app/core/services/service.py:54 | a digit run is the zero-padded form of its own value |
| `Calendar.DaysInMonth` | app/core/repositories/cache_repository.py:48 | every month has 28 to 31 days, with February's leap-year rule |
| `Calendar.NextDay` | app/core/repositories/cache_repository.py:48 | the next calendar day is one ordinal later; it is absent only after 9999-12-31 |
| `Calendar.TimeOfDay` | app/core/repositories/cache_repository.py:50 | a time of day is in [0, one day) microseconds |
| `Calendar.SplitAtDot` | app/core/services/excel_parser.py:68 | splits at the first '.', the part before holding no '.' |
| `Calendar.ParseDayFirst` | app/core/services/excel_parser.py:68 | `strptime(s, "%d.%m.%Y")` accepts only texts of at least 8 characters |
| `Calendar.DayFirstRoundTrip` | app/core/services/excel_parser.py:68 | every date written dd.mm.yyyy is parsed back as itself |
| `Calendar.IsoFormat` | app/core/services/service.py:58 | `isoformat()` is 10 characters |
| `Calendar.IsoRoundTrip` | app/core/services/service.py:54 | `fromisoformat(d.isoformat()) == d` |
| `Calendar.IsoCanonical` | app/core/services/service.py:54 | every text `fromisoformat` accepts is the `isoformat` of its date |
| `Calendar.FromIsoFormat` | app/core/services/service.py:54 | `date.fromisoformat` accepts only 10-character texts naming a real calendar date; every other text raises ValueError |
| `JsonDates.EncodeStrings` | app/core/services/service.py:58 | `json.dumps` of a list of strings is bracketed by `[` and `]` |
| `JsonDates.DecodeStrings` | app/core/repositories/cache_repository.py:62 | `json.loads` accepts a list only from a text whose first non-blank character opens an array, so an empty or blank text raises |
| `JsonDates.StringsRoundTrip` | app/core/services/service.py:58 | `json.loads(json.dumps(xs)) == xs` for strings needing no escapes |
| `JsonDates.IsoAll` | app/core/services/service.py:58 | one ISO string per date, none needing a JSON escape |
| `JsonDates.FromIsoAll` | app/core/services/service.py:54 | a successful list conversion has one date per string |
| `JsonDates.DumpDates` | app/core/services/service.py:58 | the cached payload is never empty, so it is never mistaken for a miss |
| `JsonDates.DatesRoundTrip` | app/core/services/service.py:54 | decoding the cached payload gives back exactly the dates that were cached |
| `ExcelParser.DeriveCodes` | app/core/services/excel_parser.py:61-64 | oil id is `id[:4]`, basis id `id[4:7]`, type id `id[-1]`; an empty id raises IndexError |
| `ExcelParser.CodesOfFullId` | app/core/services/excel_parser.py:61-64 | for a full-length code the three parts sit at positions 0-3, 4-6 and the last |
| `ExcelParser.IntOfCells` | app/core/services/excel_parser.py:47 | `int(cell)` gives the same integer for a number cell and for its decimal text, signed or not; an empty (NaN) cell does not convert |
| `ExcelParser.BuildRecord` | app/core/services/excel_parser.py:54-69 | a record is built iff the id is non-empty, volume and total convert and the date parses; each field comes from its column |
| `ExcelParser.GetStartRow` | app/core/services/excel_parser.py:30-36 | the loop returns exactly the specified start row |
| `ExcelParser.FindMarkerIsFirst` | app/core/services/excel_parser.py:32-33 | the search finds the first marker row at or after its start, and fails iff there is none |
| `ExcelParser.StartRowIsFirstMarker` | app/core/services/excel_parser.py:30-36 | the start row is the first marker row at or after row 4, plus 3; no marker gives an error, never a start row |
| `ExcelParser.GetAllData` | app/core/services/excel_parser.py:39-73 | the loop returns exactly the specified scan result |
| `ExcelParser.TableEnd` | app/core/services/excel_parser.py:42 | the "Итого:" row is at or after the scan start and inside the frame |
| `ExcelParser.AcceptedRows` | app/core/services/excel_parser.py:46-52 | the accepted rows before the total row, increasing, each with a count of at least 1, none missing |
| `ExcelParser.ScanNeedsTableEnd` | app/core/services/excel_parser.py:42 | a scan only succeeds if a total row ends the table |
| `ExcelParser.ScanIsBuildOfAcceptedRows` | app/core/services/excel_parser.py:42-71 | the scan builds one record per accepted row between start and total row, in order |
| `ExcelParser.ScanOrderAndBound` | app/core/services/excel_parser.py:42-71 | records come in row order, at most one per row before the total row, the total row never emitted |
| `ExcelParser.BuildAllRecords` | app/core/services/excel_parser.py:58-71 | record k is built from the k-th accepted row |
| `ExcelParser.ScanRecordsAreAccepted` | app/core/services/excel_parser.py:46-52 | every emitted record has count >= 1 and the file's date |
| `ExcelParser.BuildAllFailsAt` | app/core/services/excel_parser.py:58-71 | one accepted row that fails to build fails the whole build |
| `ExcelParser.BadAmountAbortsFile` | app/core/services/excel_parser.py:65-66 | an accepted row whose volume or total does not convert aborts the file, unlike a bad count |
| `ExcelParser.NoAcceptedRowsIgnoresDate` | app/core/services/excel_parser.py:68 | with no accepted row the date is never parsed and the result is empty |
| `ExcelParser.ParseExcelFile` | app/core/services/excel_parser.py:22-27 | the method returns exactly the specified file result |
| `ExcelParser.FileRecordsShareDate` | app/core/services/excel_parser.py:24 | all records of a file carry the date in the last 10 characters of cell (2, 1) |
| `ExcelParser.DateCellSuffix` | app/core/services/excel_parser.py:24 | a cell ending in dd.mm.yyyy yields that date whatever precedes it |
| `ExcelParser.ParseAllOnePerFile` | app/core/services/excel_parser.py:18-20 | exactly one batch per file, batch i being file i's result; any failing file fails all |
| `ExcelParser.ParseAllExcelFiles` | app/core/services/excel_parser.py:14-20 | the method returns exactly the specified list of batches |
| `HttpParser.IndexUrls` | app/core/services/http_parser.py:22 | 64 addresses, each the base followed by more text |
| `HttpParser.IndexUrlsNamePages` | app/core/services/http_parser.py:22 | the text after the base of address i is exactly `str(i + 1)` and `int()` reads it back as i + 1, so all 64 are distinct |
| `HttpParser.ParsePage` | app/core/services/http_parser.py:35-47 | text is returned iff the response arrived with a status below 400; a timeout, client or other error gives None |
| `HttpParser.KeptLinks` | app/core/services/http_parser.py:56-60 | no more links than entries |
| `HttpParser.GetDocsLinks` | app/core/services/http_parser.py:52-62 | the loop returns exactly the specified links, at most 10 |
| `HttpParser.KeptLinksAppend` | app/core/services/http_parser.py:56-60 | kept links follow the entries' order |
| `HttpParser.KeptLinksFails` | app/core/services/http_parser.py:57-58 | the page raises iff some entry's year does not convert |
| `HttpParser.KeptLinksMembers` | app/core/services/http_parser.py:57-59 | a link is kept iff some entry after 2022 joins to it; 2022 itself is excluded |
| `HttpParser.Soups` | app/core/services/http_parser.py:25 | all pages are read first; any missing page raises TypeError |
| `HttpParser.CollectLinks` | app/core/services/http_parser.py:26 | at most 10 links per page |
| `HttpParser.CollectLinksAppend` | app/core/services/http_parser.py:26 | the links of a concatenation of pages are the first pages' links followed by the rest's, so links come page by page in index order; a failing page stops everything after it |
| `HttpParser.CollectLinksMembers` | app/core/services/http_parser.py:26 | collecting succeeds iff every page does; a link is collected iff some page keeps it |
| `HttpParser.AfterLastSlash` | app/core/services/http_parser.py:66 | `split("/")[-1]` is the suffix after the last '/', holding no '/' |
| `HttpParser.BeforeFirstQuery` | app/core/services/http_parser.py:66 | `split("?")[0]` is the prefix before the first '?', holding no '?' |
| `HttpParser.StagedName` | app/core/services/http_parser.py:66 | the file name contains neither '/' nor '?' |
| `HttpParser.StagedPath` | app/core/services/http_parser.py:66 | the file lies directly inside the download folder |
| `HttpParser.StagedPaths` | app/core/services/http_parser.py:27 | one staged path per link, in link order |
| `HttpParser.DownloadExcelFiles` | app/core/services/http_parser.py:21-28 | succeeds iff every index page is read, every year on it converts and every bulletin it links to downloads; a failed index fetch raises TypeError; on success the staged files are exactly the `downloads/<last segment>` paths of the links kept on some index page, at most 640 |
| `CacheRepository.LookupAfterSet` | app/core/repositories/cache_repository.py:57-67 | after `SETEX key ttl payload`, `GET key` returns the payload until the lifetime is over and nothing from then on; every other key reads as before |
| `CacheRepository.CachedList` | app/core/repositories/cache_repository.py:56-64 | None iff the value is missing or empty; otherwise the decoded list, or ValueError |
| `CacheRepository.CachedListAfterSet` | app/core/repositories/cache_repository.py:56-68 | a stored list reads back as itself until its TTL runs out, then as a miss |
| `CacheRepository.CachedListOtherKey` | app/core/repositories/cache_repository.py:66-67 | setting one key leaves every other key's reading unchanged |
| `CacheRepository.RedisCache.constructor` | app/core/repositories/cache_repository.py:35-36 | the gateway wraps the given store |
| `CacheRepository.RedisCache.FlushAll` | app/core/repositories/cache_repository.py:38-40 | no key is left; every key reads as a miss |
| `CacheRepository.RedisCache.GetCachedData` | app/core/repositories/cache_repository.py:56-64 | the method answers the specified cache reading and changes nothing |
| `CacheRepository.RedisCache.SetCachedData` | app/core/repositories/cache_repository.py:66-68 | the key gets the payload expiring ttl seconds later; nothing else changes |
| `CacheRepository.RedisCache.ScheduleDailyFlush` | app/core/repositories/cache_repository.py:42-54 | one flush per round, each after a wait in (0, one day]; the loop ends only when a target cannot be formed |
| `CacheRepository.SameDayTarget` | app/core/repositories/cache_repository.py:45 | `replace` keeps the date and sets hh:mm:00.000000; an hour or minute out of range raises |
| `CacheRepository.NextFlushTarget` | app/core/repositories/cache_repository.py:44-50 | today at hh:mm when strictly ahead, else the next day; wait in (0, one day]; fails exactly on a month's last day |
| `CacheRepository.NextFlushTargetFixed` | app/core/repositories/cache_repository.py:48 | the same target rule with a calendar day roll-over; fails only after 9999-12-31 |
| `CacheRepository.FixedAgreesWhereWrittenWorks` | app/core/repositories/cache_repository.py:48 | the correction changes nothing where the code works |
| `CacheRepository.MonthEndFlushFails` | app/core/repositories/cache_repository.py:48 | 2024-01-31 15:00 with 14:11 raises as written, and gives 2024-02-01 14:11 corrected |
| `DbRepository.Database.constructor` | app/core/repositories/db_repository.py:24-25 | the table starts with the given rows and no queries logged |
| `DbRepository.Database.CreateDocsBulk` | app/core/repositories/db_repository.py:33-35 | the batch is appended iff every count is >= 0; otherwise nothing is stored |
| `DbRepository.Database.GetAllTradingDates` | app/core/services/service.py:57 | the query's answer for limit; the table is unchanged and the call is logged |
| `DbRepository.Database.GetDynamics` | app/core/services/service.py:69 | the query's answer for the request |
| `DbRepository.Database.GetTradingResults` | app/core/services/service.py:76 | the query's answer for the request |
| `Service.FlattenLength` | app/core/services/service.py:38-41 | the running total equals the number of rows stored |
| `Service.FlattenMembers` | app/core/services/service.py:38-41 | a record is stored iff it belongs to one of the batches |
| `Service.ParsedBatchesInsertable` | app/core/services/service.py:39 | every parsed batch passes the table's count check |
| `Service.LastDates` | app/core/services/service.py:53-62 | a hit answers the cached list cut at limit without touching database or cache; a miss (None or an empty list) asks the database with limit, caches its JSON for 60 s, and answers its prefix |
| `Service.LastDatesRepeat` | app/core/services/service.py:53-62 | a repeat within the TTL answers the same, asking the database again only if its answer was empty |
| `Service.Service.constructor` | app/core/services/service.py:17-29 | the service holds the given database, cache and key |
| `Service.Service.LoadDocsInDb` | app/core/services/service.py:31-47 | the table becomes the old table followed by every batch in order, and the total is the sum of batch lengths; a failed download or parse stores nothing |
| `Service.Service.InsertBatches` | app/core/services/service.py:38-41 | batches are inserted one at a time in list order; the table gains exactly their concatenation and the total is the sum of their lengths |
| `Service.Service.GetLastTradingDates` | app/core/services/service.py:49-62 | the answer, cache and query log are the specified ones; at most limit dates |
| `Service.Service.GetDynamics` | app/core/services/service.py:64-70 | the repository's answer, unchanged |
| `Service.Service.GetTradingResults` | app/core/services/service.py:72-77 | the repository's answer, unchanged |

## Left out

- HTTP, files, Redis and the database as real services. Fetches and downloads
  are parameters giving their outcome. The spreadsheets are given as frames,
  not read with `read_excel` from the files found by `glob`, and the files
  written by a download are not connected to the frames that are parsed.
- Concurrency. `gather`, `create_task` and the process pool are sequential maps
  in list order, and the background flush task in `app/main.py` is not modelled.
  When one download fails, the other downloads that still complete are not
  modelled.
- HTML parsing. A page is its sequence of (date text, href) entries. `urljoin`
  is an arbitrary function of two strings.
- Floating point. Spreadsheet cells are integers, texts or empty; a float cell
  and `int()` on a float are not modelled. The flush wait is exact microseconds,
  not the float `total_seconds()`.
- `PyText.ParseInt`: Python's `int()` on a str is modelled for ASCII whitespace,
  an optional sign and ASCII digits. Underscores between digits and non-ASCII
  digits and spaces are left out.
- `CacheRepository.CachedList`: a payload that is valid JSON but not an array of
  strings, or a string using escape sequences, is reported as ValueError rather
  than decoded.
- `Calendar.FromIsoFormat` accepts only the YYYY-MM-DD form; the other forms
  that `fromisoformat` accepts are left out.
- `CacheRepository.RedisCache.ScheduleDailyFlush` runs one round per given clock
  reading instead of forever, and uses the corrected target rule (see Findings).
- The Redis expiry is whole seconds: an entry set at second t with a TTL of n is
  readable at seconds t to t + n - 1.
- `DbRepository.Database.CreateDocsBulk` checks only the `count >= 0`
  constraint. Column widths and types are not checked, and an empty batch
  inserts nothing.
- The database queries `get_all_trading_dates`, `get_dynamics` and
  `get_trading_results` are opaque: no filtering or ordering is assumed.
- Logging and the elapsed-time report of `load_docs_in_db`.

## Findings

| source | as written | input that shows it | evidently intended | confidence | as-written member | corrected member |
|---|---|---|---|---|---|---|
| app/core/repositories/cache_repository.py:48 | the next flush target is `target.replace(day=target.day + 1)`, raising ValueError on the last day of a month, which ends the flush loop | now = 2024-01-31 15:00 with the default 14:11 | the next calendar day (2024-02-01 14:11) | high; not executed | `CacheRepository.MonthEndFlushFails` | `CacheRepository.NextFlushTargetFixed` |
