/** The query orchestrator (`Service`): loading the parsed bulletins into the
    database batch by batch, and answering "the last trading dates" from the
    cache when it holds them and from the database otherwise. */
module Service {
  import opened Common
  import opened Calendar
  import opened JsonDates
  import opened ExcelParser
  import opened CacheRepository
  import opened DbRepository

  // ---------------------------------------------------------------------------
  // Batches

  /** The batches one after the other. */
  function Flatten<T>(batches: seq<seq<T>>): seq<T>
  {
    if batches == [] then [] else Flatten(batches[..|batches| - 1]) + batches[|batches| - 1]
  }

  /** The sum of the batch lengths. */
  function TotalLength<T>(batches: seq<seq<T>>): nat
  {
    if batches == [] then 0 else TotalLength(batches[..|batches| - 1]) + |batches[|batches| - 1]|
  }

  /** The running total counts exactly the rows that reach the table. */
  lemma {:induction false} FlattenLength<T>(batches: seq<seq<T>>)
    ensures |Flatten(batches)| == TotalLength(batches)
  {
    if batches != [] {
      FlattenLength(batches[..|batches| - 1]);
    }
  }

  /** An element is stored exactly when it belongs to one of the batches. */
  lemma {:induction false} FlattenMembers<T>(batches: seq<seq<T>>, x: T)
    ensures x in Flatten(batches) <==> exists k :: 0 <= k < |batches| && x in batches[k]
  {
    if batches != [] {
      var init := batches[..|batches| - 1];
      FlattenMembers(init, x);
      if exists k :: 0 <= k < |batches| && x in batches[k] {
        var k :| 0 <= k < |batches| && x in batches[k];
        if k < |init| {
          assert x in init[k];
        }
      }
      if exists k :: 0 <= k < |init| && x in init[k] {
        var k :| 0 <= k < |init| && x in init[k];
        assert x in batches[k];
      }
    }
  }

  /** Every batch parsed from the bulletins passes the table's check constraint,
      since the scan keeps only rows with a count of at least 1. */
  lemma ParsedBatchesInsertable(frames: seq<Frame>)
    requires forall k :: 0 <= k < |frames| ==> frames[k].Valid()
    requires ParseAll(frames).Ok?
    ensures forall b, k :: 0 <= b < |ParseAll(frames).value| && 0 <= k < |ParseAll(frames).value[b]| ==>
      Insertable(ParseAll(frames).value[b][k])
  {
    ParseAllOnePerFile(frames);
    var batches := ParseAll(frames).value;
    forall b, k | 0 <= b < |batches| && 0 <= k < |batches[b]|
      ensures Insertable(batches[b][k])
    {
      FileRecordsShareDate(frames[b]);
      assert batches[b][k] in ParseFile(frames[b]).value;
    }
  }

  // ---------------------------------------------------------------------------
  // The last trading dates

  /** What one `get_last_trading_dates` call answers, what the cache holds after it,
      and whether it asked the database. `fromDb` is what the database answers for
      `limit`; it is used only on a miss. */
  datatype LastDatesOutcome = LastDatesOutcome(result: Result<seq<Date>>, store: Store, queried: bool)

  /** A non-empty cached list is a hit. A missing value, an empty value and an
      empty list are all misses. */
  predicate IsHit(cached: Result<Option<seq<string>>>)
  {
    cached.Ok? && cached.value.Some? && cached.value.value != []
  }

  function LastDates(store: Store, key: string, fromDb: seq<Date>, limit: nat, now: int): (o: LastDatesOutcome)
    ensures CachedList(store, key, now).Err? ==>
      o == LastDatesOutcome(Err(CachedList(store, key, now).error), store, false)
    ensures IsHit(CachedList(store, key, now)) ==>
      var cachedDates := FromIsoAll(CachedList(store, key, now).value.value);
      && !o.queried && o.store == store
      && (o.result.Ok? <==> cachedDates.Ok?)
      && (o.result.Ok? ==> o.result.value == Take(cachedDates.value, limit))
    ensures CachedList(store, key, now).Ok? && !IsHit(CachedList(store, key, now)) ==>
      && o.queried
      && o.store == store[key := Entry(DumpDates(fromDb), now + DEFAULT_TTL)]
      && o.result == Ok(Take(fromDb, limit))
  {
    var cached := CachedList(store, key, now);
    if cached.Err? then LastDatesOutcome(Err(cached.error), store, false)
    else if IsHit(cached) then
      match FromIsoAll(cached.value.value)
      case Err(e) => LastDatesOutcome(Err(e), store, false)
      case Ok(dates) => LastDatesOutcome(Ok(Take(dates, limit)), store, false)
    else
      LastDatesOutcome(Ok(Take(fromDb, limit)), store[key := Entry(DumpDates(fromDb), now + DEFAULT_TTL)], true)
  }

  /** A call that asked the database, repeated with the same limit before the
      cached list expires, answers the same, and does not ask the database again
      unless the database's answer was empty. */
  lemma LastDatesRepeat(store: Store, key: string, fromDb: seq<Date>, limit: nat, now: int, later: int)
    requires LastDates(store, key, fromDb, limit, now).queried
    requires now <= later < now + DEFAULT_TTL
    ensures var first := LastDates(store, key, fromDb, limit, now);
      var second := LastDates(first.store, key, fromDb, limit, later);
      && second.result == first.result
      && (second.queried <==> fromDb == [])
  {
    var first := LastDates(store, key, fromDb, limit, now);
    DatesRoundTrip(fromDb);
    CachedListAfterSet(store, key, IsoAll(fromDb), DEFAULT_TTL, now, later);
  }

  // ---------------------------------------------------------------------------
  // The orchestrator

  class Service {
    const db: Database
    const cache: RedisCache
    /** The Redis key of the cached date list. */
    const datesKey: string

    constructor (db: Database, cache: RedisCache, datesKey: string)
      ensures this.db == db && this.cache == cache && this.datesKey == datesKey
    {
      this.db := db;
      this.cache := cache;
      this.datesKey := datesKey;
    }

    /** `load_docs_in_db`: download the bulletins, parse every saved file, and insert
        the batches one at a time in file order, counting the inserted rows. The
        download or the parse failing stops everything before the first insert;
        the parsed batches always pass the check constraint. */
    method LoadDocsInDb(downloaded: Result<seq<string>>, frames: seq<Frame>) returns (r: Result<nat>)
      requires forall k :: 0 <= k < |frames| ==> frames[k].Valid()
      modifies db
      ensures downloaded.Err? ==> r == Err(downloaded.error) && db.rows == old(db.rows)
      ensures downloaded.Ok? && ParseAll(frames).Err? ==> r == Err(ParseAll(frames).error) && db.rows == old(db.rows)
      ensures downloaded.Ok? && ParseAll(frames).Ok? ==>
        r == Ok(TotalLength(ParseAll(frames).value))
        && db.rows == old(db.rows) + Flatten(ParseAll(frames).value)
      ensures db.datesQueries == old(db.datesQueries)
    {
      if downloaded.Err? {
        return Err(downloaded.error);
      }
      var allData := ParseAllExcelFiles(frames);
      if allData.Err? {
        return Err(allData.error);
      }
      ParsedBatchesInsertable(frames);
      var total := InsertBatches(allData.value);
      r := Ok(total);
    }

    /** The loop of `load_docs_in_db`: one `create_docs_bulk` per batch, in order,
        adding each batch's length to the total. */
    method InsertBatches(batches: seq<seq<TradeRecord>>) returns (total: nat)
      requires forall b, k :: 0 <= b < |batches| && 0 <= k < |batches[b]| ==> Insertable(batches[b][k])
      modifies db
      ensures total == TotalLength(batches)
      ensures db.rows == old(db.rows) + Flatten(batches)
      ensures db.datesQueries == old(db.datesQueries)
    {
      total := 0;
      var i := 0;
      while i < |batches|
        invariant 0 <= i <= |batches|
        invariant db.rows == old(db.rows) + Flatten(batches[..i])
        invariant total == TotalLength(batches[..i])
        invariant db.datesQueries == old(db.datesQueries)
      {
        var data := batches[i];
        var ok := db.CreateDocsBulk(data);
        assert ok;
        assert batches[..i + 1][..i] == batches[..i];
        total := total + |data|;
        i := i + 1;
      }
      assert batches[..i] == batches;
    }

    /** `get_last_trading_dates(limit)` at second `now`. */
    method GetLastTradingDates(limit: nat, now: int) returns (r: Result<seq<Date>>)
      requires limit > 0
      modifies db, cache
      ensures var o := LastDates(old(cache.store), datesKey, db.tradingDates(old(db.rows), limit), limit, now);
        && r == o.result
        && cache.store == o.store
        && db.datesQueries == old(db.datesQueries) + (if o.queried then [limit] else [])
      ensures db.rows == old(db.rows)
      ensures r.Ok? ==> |r.value| <= limit
    {
      var cached := cache.GetCachedData(datesKey, now);
      if cached.Err? {
        return Err(cached.error);
      }
      if cached.value.Some? && cached.value.value != [] {
        var dates := FromIsoAll(cached.value.value);
        if dates.Err? {
          return Err(dates.error);
        }
        return Ok(Take(dates.value, limit));
      }
      var dates := db.GetAllTradingDates(limit);
      var serialized := DumpDates(dates);
      var ok := cache.SetCachedData(serialized, datesKey, DEFAULT_TTL, now);
      assert ok;
      r := Ok(Take(dates, limit));
    }

    /** `get_dynamics(request)`: the repository's answer, unchanged. */
    method GetDynamics(request: DynamicRequest) returns (result: seq<TradeRecord>)
      ensures result == db.dynamics(db.rows, request)
    {
      result := db.GetDynamics(request);
    }

    /** `get_trading_results(request)`: the repository's answer, unchanged. */
    method GetTradingResults(request: TradingResultsRequest) returns (result: seq<TradeRecord>)
      ensures result == db.tradingResults(db.rows, request)
    {
      result := db.GetTradingResults(request);
    }
  }
}
