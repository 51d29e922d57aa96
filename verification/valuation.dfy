/** The valuation both dashboards compute from a document: portfolio value and
    cost basis summed over the holdings, the baseline deposit, total wealth,
    gain and return, per-holding gain/loss, the day-over-day change and the
    per-row change of the value log, and the public view that hides only the
    holdings table. */
module Valuation {
  import opened Common
  import opened Portfolio

  /** What one holding contributes to a total. */
  datatype Measure = MarketValue | CostBasis | GainLoss

  function Amount(h: Holding, m: Measure): real
  {
    match m
    case MarketValue => h.marketPrice * h.qty
    case CostBasis => h.avgPrice * h.qty
    case GainLoss => (h.marketPrice - h.avgPrice) * h.qty
  }

  /** The sum of one measure over the holdings: the accumulator of the
      page's `forEach`, which starts at 0. */
  function Total(hs: seq<Holding>, m: Measure): (r: real)
    ensures |hs| == 0 ==> r == 0.0
    ensures |hs| == 1 ==> r == Amount(hs[0], m)
  {
    if |hs| == 0 then 0.0 else Amount(hs[0], m) + Total(hs[1..], m)
  }

  lemma {:induction false} TotalAppend(a: seq<Holding>, b: seq<Holding>, m: Measure)
    ensures Total(a + b, m) == Total(a, m) + Total(b, m)
  {
    if |a| == 0 {
      assert a + b == b;
    } else {
      assert (a + b)[1..] == a[1..] + b;
      TotalAppend(a[1..], b, m);
    }
  }

  /** Adding one more holding at the end adds its amount: the step of the
      accumulating loop. */
  lemma TotalSnoc(hs: seq<Holding>, h: Holding, m: Measure)
    ensures Total(hs + [h], m) == Total(hs, m) + Amount(h, m)
  {
    TotalAppend(hs, [h], m);
  }

  /** Every total is the same whatever order the holdings are listed in. */
  lemma {:induction false} TotalPermutation(a: seq<Holding>, b: seq<Holding>, m: Measure)
    requires multiset(a) == multiset(b)
    ensures Total(a, m) == Total(b, m)
    decreases |a|
  {
    if |a| == 0 {
      assert |multiset(b)| == 0;
    } else {
      var x := a[0];
      assert x in multiset(b);
      var k :| 0 <= k < |b| && b[k] == x;
      var rest := b[..k] + b[k + 1..];
      MultisetRemove(b, k);
      assert a == [x] + a[1..];
      assert multiset(a[1..]) == multiset(a) - multiset{x};
      TotalPermutation(a[1..], rest, m);
      TotalRemove(b, k, m);
    }
  }

  /** Replacing one holding changes a total by the difference of their amounts. */
  lemma TotalUpdate(hs: seq<Holding>, i: nat, h: Holding, m: Measure)
    requires i < |hs|
    ensures Total(hs[i := h], m) == Total(hs, m) - Amount(hs[i], m) + Amount(h, m)
  {
    assert hs == hs[..i] + [hs[i]] + hs[i + 1..];
    assert hs[i := h] == hs[..i] + [h] + hs[i + 1..];
    TotalAppend(hs[..i] + [hs[i]], hs[i + 1..], m);
    TotalAppend(hs[..i], [hs[i]], m);
    TotalAppend(hs[..i] + [h], hs[i + 1..], m);
    TotalAppend(hs[..i], [h], m);
  }

  /** Removing one holding takes its amount out of a total. */
  lemma TotalRemove(hs: seq<Holding>, i: nat, m: Measure)
    requires i < |hs|
    ensures Total(hs[..i] + hs[i + 1..], m) == Total(hs, m) - Amount(hs[i], m)
  {
    assert hs == hs[..i] + [hs[i]] + hs[i + 1..];
    TotalAppend(hs[..i] + [hs[i]], hs[i + 1..], m);
    TotalAppend(hs[..i], [hs[i]], m);
    TotalAppend(hs[..i], hs[i + 1..], m);
  }

  /** The per-holding gains and losses add up to portfolio value minus cost. */
  lemma {:induction false} GainLossIsValueMinusCost(hs: seq<Holding>)
    ensures Total(hs, GainLoss) == Total(hs, MarketValue) - Total(hs, CostBasis)
  {
    if |hs| > 0 {
      GainLossIsValueMinusCost(hs[1..]);
      assert Amount(hs[0], GainLoss) == Amount(hs[0], MarketValue) - Amount(hs[0], CostBasis);
    }
  }

  /** `den ? (num / den * 100) : 0`: `num` as a percentage of `den`, and 0
      (never a division by zero) when `den` is 0. */
  function Percent(num: real, den: real): (r: real)
    ensures den == 0.0 ==> r == 0.0
    ensures den != 0.0 ==> r * den == num * 100.0
  {
    if den != 0.0 then num / den * 100.0 else 0.0
  }

  /** The amount return and gain are measured against: the manual initial
      deposit when it is positive, the cost basis otherwise. */
  function Baseline(initialDeposit: real, totalCost: real): real
  {
    if initialDeposit > 0.0 then initialDeposit else totalCost
  }

  datatype Summary = Summary(
    portfolioValue: real,
    totalCost: real,
    baseline: real,
    totalWealth: real,
    totalGain: real,
    returnPct: real,
    sinceStartPct: real)

  /** The account summary of a document. */
  function Summarize(d: Document): (s: Summary)
    ensures s.portfolioValue == Total(d.holdings, MarketValue)
    ensures s.totalCost == Total(d.holdings, CostBasis)
    ensures s.totalWealth == s.portfolioValue + d.cashBalance
    ensures s.totalGain == s.totalWealth - s.baseline
    ensures d.initialDeposit > 0.0 ==> s.baseline == d.initialDeposit
    ensures d.initialDeposit <= 0.0 ==> s.baseline == s.totalCost
    ensures s.returnPct == Percent(s.totalGain, s.baseline)
    ensures s.sinceStartPct == Percent(s.portfolioValue - s.totalCost, s.totalCost)
  {
    var value := Total(d.holdings, MarketValue);
    var cost := Total(d.holdings, CostBasis);
    var baseline := Baseline(d.initialDeposit, cost);
    var wealth := value + d.cashBalance;
    var gain := wealth - baseline;
    Summary(value, cost, baseline, wealth, gain, Percent(gain, baseline), Percent(value - cost, cost))
  }

  /** Listing the same holdings in another order gives the same summary. */
  lemma SummaryIgnoresHoldingOrder(d: Document, hs: seq<Holding>)
    requires multiset(hs) == multiset(d.holdings)
    ensures Summarize(d.(holdings := hs)) == Summarize(d)
  {
    TotalPermutation(hs, d.holdings, MarketValue);
    TotalPermutation(hs, d.holdings, CostBasis);
  }

  /** The since-start percentage measures the holdings alone: it does not move
      with the cash balance or the manual initial deposit. */
  lemma SinceStartIgnoresCashAndDeposit(d: Document, cash: real, deposit: real)
    ensures Summarize(d.(cashBalance := cash, initialDeposit := deposit)).sinceStartPct
         == Summarize(d).sinceStartPct
  {
  }

  /** Changing the cash balance moves total wealth and gain by the same amount
      and leaves the holdings figures alone. */
  lemma CashMovesWealthOnly(d: Document, cash: real)
    ensures var s, s' := Summarize(d), Summarize(d.(cashBalance := cash));
      && s'.totalWealth == s.totalWealth + (cash - d.cashBalance)
      && s'.totalGain == s.totalGain + (cash - d.cashBalance)
      && s'.portfolioValue == s.portfolioValue && s'.totalCost == s.totalCost
      && s'.baseline == s.baseline && s'.sinceStartPct == s.sinceStartPct
  {
  }

  /** One row of the public holdings table. */
  datatype HoldingRow = HoldingRow(holding: Holding, value: real, gainLoss: real, gainLossPct: real)

  function Row(h: Holding): (r: HoldingRow)
    ensures r.holding == h
    ensures r.value == h.marketPrice * h.qty
    ensures r.gainLoss == r.value - Amount(h, CostBasis)
    ensures h.avgPrice == 0.0 ==> r.gainLossPct == 0.0
    ensures h.avgPrice != 0.0 ==> r.gainLossPct * h.avgPrice == (h.marketPrice - h.avgPrice) * 100.0
  {
    HoldingRow(h, Amount(h, MarketValue), Amount(h, GainLoss), Percent(h.marketPrice - h.avgPrice, h.avgPrice))
  }

  /** Sum of the gain/loss column of a table. */
  function RowGainTotal(rows: seq<HoldingRow>): real
  {
    if |rows| == 0 then 0.0 else rows[0].gainLoss + RowGainTotal(rows[1..])
  }

  /** A change between two consecutive values, absolute and in percent. */
  datatype Change = Change(amount: real, pct: real)

  function ChangeBetween(previous: real, latest: real): (c: Change)
    ensures c.amount + previous == latest
    ensures previous == 0.0 ==> c.pct == 0.0
    ensures previous != 0.0 ==> c.pct * previous == c.amount * 100.0
  {
    Change(latest - previous, Percent(latest - previous, previous))
  }

  /** The headline daily change: between the last two log positions (by
      position, not by date), and zero when there are fewer than two logs. */
  function DailyChange(logs: seq<LogEntry>): (c: Change)
    ensures |logs| < 2 ==> c == Change(0.0, 0.0)
    ensures |logs| >= 2 ==> c.amount == logs[|logs| - 1].value - logs[|logs| - 2].value
    ensures |logs| >= 2 && logs[|logs| - 2].value == 0.0 ==> c.pct == 0.0
    ensures |logs| >= 2 && logs[|logs| - 2].value != 0.0 ==> c.pct * logs[|logs| - 2].value == c.amount * 100.0
  {
    if |logs| >= 2 then ChangeBetween(logs[|logs| - 2].value, logs[|logs| - 1].value)
    else Change(0.0, 0.0)
  }

  /** One row of the public log table; the first row has no change. */
  datatype LogRow = LogRow(date: string, value: real, change: Option<Change>)

  function LogRows(logs: seq<LogEntry>): (rows: seq<LogRow>)
    ensures |rows| == |logs|
    ensures forall k :: 0 <= k < |rows| ==> rows[k].date == logs[k].date && rows[k].value == logs[k].value
    ensures |rows| > 0 ==> rows[0].change.None?
    ensures forall k :: 0 < k < |rows| ==> rows[k].change.Some? && rows[k].change.value.amount + logs[k - 1].value == logs[k].value
    ensures forall k :: 0 < k < |rows| && logs[k - 1].value == 0.0 ==> rows[k].change.value.pct == 0.0
    ensures forall k :: 0 < k < |rows| ==> rows[k].change == Some(ChangeBetween(logs[k - 1].value, logs[k].value))
  {
    seq(|logs|, k requires 0 <= k < |logs| =>
      LogRow(logs[k].date, logs[k].value,
             if k == 0 then None else Some(ChangeBetween(logs[k - 1].value, logs[k].value))))
  }

  /** The last row of the log table carries the headline daily change. */
  lemma LastRowIsDailyChange(logs: seq<LogEntry>)
    requires |logs| >= 2
    ensures LogRows(logs)[|logs| - 1].change == Some(DailyChange(logs))
  {
  }

  /** Sum of the change column from row 1 on. */
  function ChangeTotal(rows: seq<LogRow>): real
  {
    if |rows| == 0 then 0.0
    else ChangeTotal(rows[..|rows| - 1]) + (match rows[|rows| - 1].change case Some(c) => c.amount case None => 0.0)
  }

  /** The row changes telescope: together they add up to the distance from the
      first logged value to the last. */
  lemma {:induction false} ChangesTelescope(logs: seq<LogEntry>)
    requires |logs| > 0
    ensures ChangeTotal(LogRows(logs)) == logs[|logs| - 1].value - logs[0].value
  {
    var rows := LogRows(logs);
    if |logs| > 1 {
      var init := logs[..|logs| - 1];
      assert LogRows(init) == rows[..|rows| - 1];
      ChangesTelescope(init);
    }
  }

  /** What the public page shows. */
  datatype PublicView = PublicView(
    summary: Summary,
    dailyChange: Change,
    holdingRows: Option<seq<HoldingRow>>,
    logRows: seq<LogRow>)

  /** The public page: the summary, the daily change and the log table of the
      document, and the holdings table unless the document hides it, one row
      per holding in document order. */
  function RenderPublic(d: Document): (v: PublicView)
    ensures v.holdingRows.Some? <==> d.showHoldingsPublic
    ensures v.holdingRows.Some? ==> |v.holdingRows.value| == |d.holdings|
    ensures v.holdingRows.Some? ==> forall i :: 0 <= i < |d.holdings| ==> v.holdingRows.value[i] == Row(d.holdings[i])
    ensures v.summary == Summarize(d)
    ensures v.dailyChange == DailyChange(d.logs)
    ensures v.logRows == LogRows(d.logs)
  {
    var rows := if d.showHoldingsPublic then Some(seq(|d.holdings|, i requires 0 <= i < |d.holdings| => Row(d.holdings[i]))) else None;
    PublicView(Summarize(d), DailyChange(d.logs), rows, LogRows(d.logs))
  }

  /** The visibility switch hides the holdings table and nothing else: the
      totals, the daily change and the log table are the same either way. */
  lemma VisibilityGatesOnlyHoldings(d: Document, show: bool)
    ensures var v, v' := RenderPublic(d), RenderPublic(d.(showHoldingsPublic := show));
      v'.summary == v.summary && v'.dailyChange == v.dailyChange && v'.logRows == v.logRows
  {
  }

  lemma {:induction false} RowGainTotalIsTotal(hs: seq<Holding>, rows: seq<HoldingRow>)
    requires |rows| == |hs|
    requires forall i :: 0 <= i < |hs| ==> rows[i] == Row(hs[i])
    ensures RowGainTotal(rows) == Total(hs, GainLoss)
  {
    if |hs| > 0 {
      RowGainTotalIsTotal(hs[1..], rows[1..]);
    }
  }

  /** The gain/loss column of the public table adds up to portfolio value
      minus cost basis from the summary. */
  lemma HoldingGainsAddUp(d: Document)
    requires d.showHoldingsPublic
    ensures var v := RenderPublic(d);
      RowGainTotal(v.holdingRows.value) == v.summary.portfolioValue - v.summary.totalCost
  {
    var v := RenderPublic(d);
    RowGainTotalIsTotal(d.holdings, v.holdingRows.value);
    GainLossIsValueMinusCost(d.holdings);
    assert v.summary.portfolioValue == Total(d.holdings, MarketValue);
    assert v.summary.totalCost == Total(d.holdings, CostBasis);
  }

  /** A document with one holding of 100 ABC bought at 50 and now at 55, and
      1000 in cash. */
  lemma SummaryScenario()
    ensures var s := Summarize(Document([Holding("ABC", 100.0, 50.0, 55.0, "")], [], 1000.0, 0.0, true));
      && s.portfolioValue == 5500.0 && s.totalCost == 5000.0 && s.baseline == 5000.0
      && s.totalWealth == 6500.0 && s.totalGain == 1500.0 && s.returnPct == 30.0
  {
  }

  /** Two consecutive logs of 100 and 110 give a daily change of +10 (+10%). */
  lemma DailyChangeScenario()
    ensures DailyChange([LogEntry("2025-01-01", 100.0), LogEntry("2025-01-02", 110.0)]) == Change(10.0, 10.0)
  {
  }
}
