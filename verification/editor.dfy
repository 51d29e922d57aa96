/** The admin editor: the working document plus the holding being edited, and
    the handlers the admin page wires to its buttons, each a pure step from
    one editor state to the next or to the validation error it reports. */
module Editor {
  import opened Common
  import opened Text
  import opened Portfolio
  import V = Valuation
  import Logs

  /** Whether the holding form appends or overwrites; `editingIndex` is -1 or
      the row whose Edit button was pressed. */
  datatype EditTarget = Appending | Editing(index: nat)

  datatype EditorState = EditorState(doc: Document, target: EditTarget)

  /** The holding form as the page reads it; a numeric field that is empty or
      not a number is None. */
  datatype HoldingForm = HoldingForm(
    symbol: string,
    qty: Option<real>,
    avgPrice: Option<real>,
    marketPrice: Option<real>,
    notes: string)

  /** The daily log form. */
  datatype LogForm = LogForm(date: string, value: Option<real>)

  /** Why the page refused an action; it shows "Symbol and quantity
      required", "Date and value required" and "Initial deposit must be
      greater than 0" respectively. */
  datatype ValidationError = SymbolAndQuantityRequired | DateAndValueRequired | DepositMustBePositive

  /** The symbol as it is stored: upper-cased, then trimmed. */
  function NormalizeSymbol(s: string): string
  {
    Trim(ToUpper(s))
  }

  /** The holding a valid form submission writes. */
  function FormHolding(f: HoldingForm): Holding
  {
    Holding(NormalizeSymbol(f.symbol), Coerce(f.qty), Coerce(f.avgPrice), Coerce(f.marketPrice), f.notes)
  }

  /** A stored symbol is clean: no surrounding whitespace and no lower-case
      ASCII letter. */
  lemma NormalizedSymbolIsClean(s: string)
    ensures var n := NormalizeSymbol(s);
      && NoLowerCase(n)
      && (|n| > 0 ==> !IsSpace(n[0]) && !IsSpace(n[|n| - 1]))
      && NormalizeSymbol(n) == n
  {
    TrimAfterUpper(s);
    ToUpperNormalizes(Trim(s));
    var n := NormalizeSymbol(s);
    TrimAfterUpper(n);
    assert ToUpper(n) == n by {
      ToUpperNormalizes(Trim(s));
    }
    TrimIdempotent(ToUpper(s));
  }

  /** The holding form exists only while the page could render it: with an
      edit target past the end of the holdings, rendering fails when it reads
      the target's fields, before the form and its handlers are built. */
  predicate FormShown(s: EditorState)
  {
    s.target.Appending? || s.target.index < |s.doc.holdings|
  }

  /** The Add/Update button. It refuses an empty normalised symbol or a
      quantity that reads as 0 and changes nothing. Otherwise it overwrites the
      holding being edited and returns to append mode, or appends without
      looking for an existing holding with the same symbol. */
  function SubmitHolding(s: EditorState, f: HoldingForm): (r: Result<EditorState, ValidationError>)
    requires FormShown(s)
    ensures r.Failure? <==> NormalizeSymbol(f.symbol) == [] || Coerce(f.qty) == 0.0
    ensures r.Failure? ==> r.error == SymbolAndQuantityRequired
    ensures r.Success? ==> r.value.target == Appending
    ensures r.Success? ==> r.value.doc.(holdings := s.doc.holdings) == s.doc
    ensures r.Success? && s.target.Appending? ==>
      && |r.value.doc.holdings| == |s.doc.holdings| + 1
      && r.value.doc.holdings[..|s.doc.holdings|] == s.doc.holdings
      && r.value.doc.holdings[|s.doc.holdings|] == FormHolding(f)
    ensures r.Success? && s.target.Editing? ==>
      && |r.value.doc.holdings| == |s.doc.holdings|
      && r.value.doc.holdings[s.target.index] == FormHolding(f)
      && forall j :: 0 <= j < |s.doc.holdings| && j != s.target.index ==> r.value.doc.holdings[j] == s.doc.holdings[j]
  {
    var h := FormHolding(f);
    if h.symbol == [] || h.qty == 0.0 then Failure(SymbolAndQuantityRequired)
    else
      var hs := match s.target
        case Editing(i) => s.doc.holdings[i := h]
        case Appending => s.doc.holdings + [h];
      Success(EditorState(s.doc.(holdings := hs), Appending))
  }

  /** A written holding has a clean, non-empty symbol and a non-zero quantity. */
  lemma SubmittedHoldingIsValid(s: EditorState, f: HoldingForm)
    requires FormShown(s)
    requires SubmitHolding(s, f).Success?
    ensures var h := FormHolding(f);
      && |h.symbol| > 0 && !IsSpace(h.symbol[0]) && !IsSpace(h.symbol[|h.symbol| - 1])
      && NoLowerCase(h.symbol)
      && h.qty != 0.0
  {
    NormalizedSymbolIsClean(f.symbol);
  }

  /** Every total moves by exactly the written holding: appending adds its
      amount, overwriting swaps the old holding's amount for the new one's. */
  lemma SubmitMovesTotals(s: EditorState, f: HoldingForm, m: V.Measure)
    requires FormShown(s)
    requires SubmitHolding(s, f).Success?
    ensures var hs, hs' := s.doc.holdings, SubmitHolding(s, f).value.doc.holdings;
      && (s.target.Appending? ==> V.Total(hs', m) == V.Total(hs, m) + V.Amount(FormHolding(f), m))
      && (s.target.Editing? ==>
            V.Total(hs', m) == V.Total(hs, m) - V.Amount(hs[s.target.index], m) + V.Amount(FormHolding(f), m))
  {
    var h := FormHolding(f);
    match s.target
    case Appending =>
      V.TotalSnoc(s.doc.holdings, h, m);
    case Editing(i) =>
      V.TotalUpdate(s.doc.holdings, i, h, m);
  }

  /** Adding does not merge by symbol: appending a holding whose normalised
      symbol is already held gives two holdings with that symbol. */
  lemma AppendKeepsDuplicateSymbols(s: EditorState, f: HoldingForm, i: nat)
    requires s.target.Appending? && i < |s.doc.holdings|
    requires SubmitHolding(s, f).Success?
    requires s.doc.holdings[i].symbol == NormalizeSymbol(f.symbol)
    ensures var hs := SubmitHolding(s, f).value.doc.holdings;
      && |hs| == |s.doc.holdings| + 1
      && hs[i] == s.doc.holdings[i]
      && hs[|hs| - 1].symbol == hs[i].symbol
  {
    var hs := SubmitHolding(s, f).value.doc.holdings;
    assert hs[..|s.doc.holdings|][i] == hs[i];
  }

  /** The holding written for `"abc "` with quantity 3. */
  lemma AbcFormHolding()
    ensures FormHolding(HoldingForm("abc ", Some(3.0), None, None, "")) == Holding("ABC", 3.0, 0.0, 0.0, "")
  {
    AbcUpper();
    AbcTrim();
  }

  lemma AbcUpper()
    ensures ToUpper("abc ") == "ABC "
  {
    var u := ToUpper("abc ");
    assert u[0] == 'A' && u[1] == 'B' && u[2] == 'C' && u[3] == ' ';
  }

  lemma AbcTrim()
    ensures Trim("ABC ") == "ABC"
  {
    var t := "ABC ";
    assert !IsSpace(t[0]) && IsSpace(t[3]) && !IsSpace(t[2]);
    assert TrimStart(t) == t;
    assert t[..3] == "ABC";
    assert TrimEnd(t) == TrimEnd("ABC");
    assert TrimEnd("ABC") == "ABC";
  }

  /** A second "abc " next to "ABC" is a second ABC holding. */
  lemma AddKeepsDuplicateSymbols()
    ensures var s := EditorState(EmptyDocument.(holdings := [Holding("ABC", 10.0, 5.0, 6.0, "")]), Appending);
      var r := SubmitHolding(s, HoldingForm("abc ", Some(3.0), None, None, ""));
      && r.Success?
      && r.value.doc.holdings == [Holding("ABC", 10.0, 5.0, 6.0, ""), Holding("ABC", 3.0, 0.0, 0.0, "")]
  {
    AbcFormHolding();
    var s := EditorState(EmptyDocument.(holdings := [Holding("ABC", 10.0, 5.0, 6.0, "")]), Appending);
    var hs := SubmitHolding(s, HoldingForm("abc ", Some(3.0), None, None, "")).value.doc.holdings;
    assert hs == hs[..1] + [hs[1]];
  }

  /** The Edit button of a row. */
  function EditSelect(s: EditorState, i: nat): (r: EditorState)
    ensures r.doc == s.doc && r.target == Editing(i)
  {
    s.(target := Editing(i))
  }

  /** The Cancel button. */
  function Cancel(s: EditorState): (r: EditorState)
    ensures r.doc == s.doc && r.target == Appending
  {
    s.(target := Appending)
  }

  /** Selecting a row and cancelling leaves the document as it was, in append
      mode. */
  lemma SelectThenCancel(s: EditorState, i: nat)
    ensures Cancel(EditSelect(s, i)) == s.(target := Appending)
  {
  }

  /** The Delete button of a holding row: the row goes, the others keep their
      order, and the edit target is left as it was. */
  function DeleteHolding(s: EditorState, i: nat): (r: EditorState)
    ensures r.target == s.target
    ensures r.doc.(holdings := s.doc.holdings) == s.doc
    ensures i < |s.doc.holdings| ==>
      && |r.doc.holdings| == |s.doc.holdings| - 1
      && multiset(r.doc.holdings) == multiset(s.doc.holdings) - multiset{s.doc.holdings[i]}
      && forall j :: 0 <= j < |r.doc.holdings| ==>
           r.doc.holdings[j] == (if j < i then s.doc.holdings[j] else s.doc.holdings[j + 1])
    ensures i >= |s.doc.holdings| ==> r == s
  {
    s.(doc := s.doc.(holdings := RemoveAt(s.doc.holdings, i)))
  }

  /** Deleting a holding takes exactly its amount out of every total. */
  lemma DeleteMovesTotals(s: EditorState, i: nat, m: V.Measure)
    requires i < |s.doc.holdings|
    ensures V.Total(DeleteHolding(s, i).doc.holdings, m) == V.Total(s.doc.holdings, m) - V.Amount(s.doc.holdings[i], m)
  {
    V.TotalRemove(s.doc.holdings, i, m);
  }

  /** Deleting a row above the one being edited keeps the index, which now
      names the next holding down. */
  lemma DeleteShiftsEditTarget(s: EditorState, i: nat)
    requires s.target.Editing? && i < s.target.index < |s.doc.holdings| - 1
    ensures var r := DeleteHolding(s, i);
      r.target == s.target && r.doc.holdings[s.target.index] == s.doc.holdings[s.target.index + 1]
  {
  }

  /** Deleting any row while the last one is being edited leaves an edit
      target past the end, and the page cannot show the form again. */
  lemma DeleteCanStrandEditTarget(s: EditorState, i: nat)
    requires s.target.Editing? && s.target.index == |s.doc.holdings| - 1
    requires i < |s.doc.holdings|
    ensures FormShown(s) && !FormShown(DeleteHolding(s, i))
  {
  }

  /** The Log Entry button: refuses an empty trimmed date or a value that
      reads as 0; otherwise upserts the log by date. */
  function SubmitLog(s: EditorState, f: LogForm): (r: Result<EditorState, ValidationError>)
    ensures r.Failure? <==> Trim(f.date) == [] || Coerce(f.value) == 0.0
    ensures r.Failure? ==> r.error == DateAndValueRequired
    ensures r.Success? ==> r.value.target == s.target
    ensures r.Success? ==> r.value.doc.(logs := s.doc.logs) == s.doc
    ensures r.Success? ==> r.value.doc.logs == Logs.Upsert(s.doc.logs, Trim(f.date), Coerce(f.value))
  {
    var date := Trim(f.date);
    var value := Coerce(f.value);
    if date == [] || value == 0.0 then Failure(DateAndValueRequired)
    else Success(s.(doc := s.doc.(logs := Logs.Upsert(s.doc.logs, date, value))))
  }

  /** Any sequence of log submissions keeps a sorted, date-unique log sorted
      and date-unique, with the submitted value stored under its date. */
  lemma SubmitLogKeepsLogOrdered(s: EditorState, f: LogForm)
    requires Logs.Sorted(s.doc.logs) && Logs.UniqueDates(s.doc.logs)
    requires SubmitLog(s, f).Success?
    ensures var logs := SubmitLog(s, f).value.doc.logs;
      && Logs.Sorted(logs) && Logs.UniqueDates(logs)
      && Logs.FindDate(logs, Trim(f.date)).Some?
      && logs[Logs.FindDate(logs, Trim(f.date)).value].value == Coerce(f.value)
  {
    Logs.UpsertKeepsLogOrdered(s.doc.logs, Trim(f.date), Coerce(f.value));
  }

  /** The Delete button of a log row. */
  function DeleteLog(s: EditorState, i: nat): (r: EditorState)
    ensures r.target == s.target
    ensures r.doc.(logs := s.doc.logs) == s.doc
    ensures i < |s.doc.logs| ==>
      && |r.doc.logs| == |s.doc.logs| - 1
      && multiset(r.doc.logs) == multiset(s.doc.logs) - multiset{s.doc.logs[i]}
      && forall j :: 0 <= j < |r.doc.logs| ==>
           r.doc.logs[j] == (if j < i then s.doc.logs[j] else s.doc.logs[j + 1])
    ensures i >= |s.doc.logs| ==> r == s
  {
    s.(doc := s.doc.(logs := RemoveAt(s.doc.logs, i)))
  }

  lemma DeleteLogKeepsLogOrdered(s: EditorState, i: nat)
    requires Logs.Sorted(s.doc.logs) && Logs.UniqueDates(s.doc.logs)
    ensures Logs.Sorted(DeleteLog(s, i).doc.logs) && Logs.UniqueDates(DeleteLog(s, i).doc.logs)
  {
    Logs.DeleteKeepsLogOrdered(s.doc.logs, i);
  }

  /** The initial deposit setter: refuses a value that reads as 0 or less and
      changes nothing; otherwise changes the deposit and nothing else. */
  function SetInitialDeposit(s: EditorState, x: Option<real>): (r: Result<EditorState, ValidationError>)
    ensures r.Failure? <==> Coerce(x) <= 0.0
    ensures r.Failure? ==> r.error == DepositMustBePositive
    ensures r.Success? ==> r.value.doc.initialDeposit > 0.0
    ensures r.Success? ==> r.value == s.(doc := s.doc.(initialDeposit := Coerce(x)))
  {
    var v := Coerce(x);
    if v <= 0.0 then Failure(DepositMustBePositive)
    else Success(s.(doc := s.doc.(initialDeposit := v)))
  }

  /** A deposit the setter accepts becomes the baseline for gain and return. */
  lemma AcceptedDepositIsBaseline(s: EditorState, x: Option<real>)
    requires SetInitialDeposit(s, x).Success?
    ensures V.Summarize(SetInitialDeposit(s, x).value.doc).baseline == Coerce(x)
  {
  }

  /** The cash balance setter takes any number, negative included (an empty
      input reads as 0), and changes nothing else. */
  function SetCashBalance(s: EditorState, x: Option<real>): (r: EditorState)
    ensures r.doc.cashBalance == Coerce(x)
    ensures r.doc.(cashBalance := s.doc.cashBalance) == s.doc && r.target == s.target
  {
    s.(doc := s.doc.(cashBalance := Coerce(x)))
  }

  /** The public-visibility checkbox. */
  function SetVisibility(s: EditorState, checked: bool): (r: EditorState)
    ensures r.doc.showHoldingsPublic == checked
    ensures r.doc.(showHoldingsPublic := s.doc.showHoldingsPublic) == s.doc && r.target == s.target
  {
    s.(doc := s.doc.(showHoldingsPublic := checked))
  }

  /** The admin sidebar's account summary, accumulated holding by holding as
      the page does. It agrees with the public page's figures for the same
      document. */
  method SidebarStats(d: Document) returns (value: real, cost: real, baseline: real, wealth: real, gain: real, returnPct: real)
    ensures value == V.Summarize(d).portfolioValue
    ensures cost == V.Summarize(d).totalCost
    ensures baseline == V.Summarize(d).baseline
    ensures wealth == V.Summarize(d).totalWealth
    ensures gain == V.Summarize(d).totalGain
    ensures returnPct == V.Summarize(d).returnPct
  {
    value, cost := 0.0, 0.0;
    var i := 0;
    while i < |d.holdings|
      invariant 0 <= i <= |d.holdings|
      invariant value == V.Total(d.holdings[..i], V.MarketValue)
      invariant cost == V.Total(d.holdings[..i], V.CostBasis)
    {
      var h := d.holdings[i];
      assert d.holdings[..i + 1] == d.holdings[..i] + [h];
      V.TotalSnoc(d.holdings[..i], h, V.MarketValue);
      V.TotalSnoc(d.holdings[..i], h, V.CostBasis);
      value := value + h.marketPrice * h.qty;
      cost := cost + h.avgPrice * h.qty;
      i := i + 1;
    }
    assert d.holdings[..i] == d.holdings;
    baseline := if d.initialDeposit > 0.0 then d.initialDeposit else cost;
    wealth := value + d.cashBalance;
    gain := wealth - baseline;
    returnPct := if baseline != 0.0 then (gain / baseline) * 100.0 else 0.0;
    assert returnPct == V.Percent(gain, baseline);
  }

  /** The value and gain/loss cells of one row of the admin holdings table.
      They agree with the public table's row for the same holding. */
  function AdminHoldingCells(h: Holding): (r: (real, real))
    ensures r.0 == V.Row(h).value && r.1 == V.Row(h).gainLoss
    ensures r.1 == r.0 - V.Amount(h, V.CostBasis)
  {
    var qty := h.qty;
    var mp := h.marketPrice;
    var avg := h.avgPrice;
    (qty * mp, (mp - avg) * qty)
  }
}
