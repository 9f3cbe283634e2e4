/** The database behind the orchestrator: the trading-results table as a sequence
    of records, `create_docs_bulk` as an append, and the three read queries the
    orchestrator calls as opaque functions of the table. */
module DbRepository {
  import opened Common
  import opened Calendar
  import opened ExcelParser

  /** The filter of `get_dynamics`. */
  datatype DynamicRequest = DynamicRequest(
    oilId: Option<string>,
    deliveryTypeId: Option<string>,
    deliveryBasisId: Option<string>,
    startDate: Date,
    endDate: Date)

  /** The filter of `get_trading_results`. */
  datatype TradingResultsRequest = TradingResultsRequest(
    oilId: Option<string>,
    deliveryTypeId: Option<string>,
    deliveryBasisId: Option<string>)

  /** The table's check constraint `count >= 0`. */
  predicate Insertable(rec: TradeRecord)
  {
    rec.count >= 0
  }

  class Database {
    /** The rows of the trading-results table, in insertion order. */
    var rows: seq<TradeRecord>
    /** The `limit` of every `get_all_trading_dates` call so far. */
    var datesQueries: seq<int>

    /** The read queries; their filtering and ordering are the database's. */
    const tradingDates: (seq<TradeRecord>, int) -> seq<Date>
    const dynamics: (seq<TradeRecord>, DynamicRequest) -> seq<TradeRecord>
    const tradingResults: (seq<TradeRecord>, TradingResultsRequest) -> seq<TradeRecord>

    constructor (
      initial: seq<TradeRecord>,
      tradingDates: (seq<TradeRecord>, int) -> seq<Date>,
      dynamics: (seq<TradeRecord>, DynamicRequest) -> seq<TradeRecord>,
      tradingResults: (seq<TradeRecord>, TradingResultsRequest) -> seq<TradeRecord>)
      ensures rows == initial && datesQueries == []
      ensures this.tradingDates == tradingDates && this.dynamics == dynamics
      ensures this.tradingResults == tradingResults
    {
      rows := initial;
      datesQueries := [];
      this.tradingDates := tradingDates;
      this.dynamics := dynamics;
      this.tradingResults := tradingResults;
    }

    /** `create_docs_bulk`: one INSERT of the whole batch, then COMMIT. A record that
        breaks the check constraint makes the statement fail, and nothing of the
        batch is stored. */
    method CreateDocsBulk(batch: seq<TradeRecord>) returns (ok: bool)
      modifies this
      ensures ok <==> forall k :: 0 <= k < |batch| ==> Insertable(batch[k])
      ensures rows == if ok then old(rows) + batch else old(rows)
      ensures datesQueries == old(datesQueries)
    {
      ok := forall k :: 0 <= k < |batch| ==> Insertable(batch[k]);
      if ok {
        rows := rows + batch;
      }
    }

    /** `get_all_trading_dates(limit)`. */
    method GetAllTradingDates(limit: int) returns (dates: seq<Date>)
      modifies this
      ensures dates == tradingDates(rows, limit)
      ensures rows == old(rows) && datesQueries == old(datesQueries) + [limit]
    {
      dates := tradingDates(rows, limit);
      datesQueries := datesQueries + [limit];
    }

    /** `get_dynamics(request)`. */
    method GetDynamics(request: DynamicRequest) returns (result: seq<TradeRecord>)
      ensures result == dynamics(rows, request)
    {
      result := dynamics(rows, request);
    }

    /** `get_trading_results(request)`. */
    method GetTradingResults(request: TradingResultsRequest) returns (result: seq<TradeRecord>)
      ensures result == tradingResults(rows, request)
    {
      result := tradingResults(rows, request);
    }
  }
}
