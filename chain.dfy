/** The option record: one row of the options-chain table that the
    downloader writes and the analyser reads. */
module Chain {

  /** An expiration date as the brokerage gives it, an ISO calendar date string ("2024-01-19"). */
  type Date = string

  /** The `option_type` column: the literal strings "call" and "put". */
  datatype OptionType = Call | Put

  /** One row of the table, field for field the 19 columns of the CSV file.
      Strikes are taken as already parsed; volume and open interest are counts;
      every other market field is kept as the text the brokerage sent, with
      "" for a field it did not send. */
  datatype OptionRecord = OptionRecord(
    symbol: string,
    expirationDate: Date,
    strikePrice: real,
    optionType: OptionType,
    bidPrice: string,
    askPrice: string,
    markPrice: string,
    lastTradePrice: string,
    volume: nat,
    openInterest: nat,
    impliedVolatility: string,
    delta: string,
    gamma: string,
    theta: string,
    vega: string,
    rho: string,
    highPrice: string,
    lowPrice: string,
    previousClose: string)

  /** The CSV header, in the order the record's keys are written. */
  const Columns: seq<string> := [
    "symbol", "expiration_date", "strike_price", "option_type",
    "bid_price", "ask_price", "mark_price", "last_trade_price",
    "volume", "open_interest", "implied_volatility",
    "delta", "gamma", "theta", "vega", "rho",
    "high_price", "low_price", "previous_close"]

  /** The distinct expiration dates occurring in `rows`. */
  function DatesOf(rows: seq<OptionRecord>): set<Date> {
    set r | r in rows :: r.expirationDate
  }
}
