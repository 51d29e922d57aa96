/** The portfolio document as the dashboard and the editor read it: holdings,
    the daily value log, the cash balance, the manual initial deposit and the
    public visibility switch for the holdings table. Amounts are exact
    rationals; dates are the `YYYY-MM-DD` strings the JSON file stores. */
module Portfolio {

  /** One stock position. */
  datatype Holding = Holding(
    symbol: string,
    qty: real,
    avgPrice: real,
    marketPrice: real,
    notes: string)

  /** The portfolio's total value on one date. */
  datatype LogEntry = LogEntry(date: string, value: real)

  datatype Document = Document(
    holdings: seq<Holding>,
    logs: seq<LogEntry>,
    cashBalance: real,
    initialDeposit: real,
    showHoldingsPublic: bool)

  /** The document the editor starts from when it has nothing loaded. */
  const EmptyDocument := Document([], [], 0.0, 0.0, true)
}
