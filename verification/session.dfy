/** The round trip between the admin script and the server: the load endpoint
    hands back what the save endpoint stored (or a demo document while nothing
    is stored), and the script's reload replaces its document with what it
    loaded and drops any edit in progress. */
module Session {
  import opened Common
  import opened Portfolio
  import opened Storage
  import V = Valuation
  import E = Editor

  /** The document the load endpoint serves while no data file exists. */
  function DemoObject(): Object
  {
    map[
      CashKey := JNum(50000.0),
      DepositKey := JNum(0.0),
      ShowKey := JBool(true),
      HoldingsKey := JArr([
        HoldingJson(Holding("ABC", 100.0, 50.0, 55.0, "Demo holding - Technology sector")),
        HoldingJson(Holding("XYZ", 200.0, 30.0, 28.0, "Demo holding - Finance sector"))]),
      LogsKey := JArr([
        LogJson(LogEntry("2025-11-20", 15000.0)), LogJson(LogEntry("2025-11-21", 15250.0)),
        LogJson(LogEntry("2025-11-22", 15100.0)), LogJson(LogEntry("2025-11-23", 15500.0)),
        LogJson(LogEntry("2025-11-24", 15900.0)), LogJson(LogEntry("2025-11-25", 16100.0))])]
  }

  /** The load endpoint: the stored document as it is, or the demo when there
      is no data file. */
  function HandleLoad(file: Option<Object>): (r: Json)
    ensures r.JObj?
    ensures file.Some? ==> r.fields == file.value
    ensures file.None? ==> r.fields == DemoObject()
  {
    match file
    case Some(m) => JObj(m)
    case None => JObj(DemoObject())
  }

  /** The admin script's reload: the loaded document, with the script's
      fill-ins, replaces the editor's document and ends any edit. Because the
      fill-ins are invisible to the valuation, the editor ends up with the
      document as stored. */
  function Reload(s: E.EditorState, data: Json): (r: E.EditorState)
    requires !data.JArr?
    ensures r.target == E.Appending
    ensures data.JObj? ==> r.doc == ToDocument(data.fields)
    ensures !data.JObj? ==> r.doc == EmptyDocument
  {
    assert data.JObj? ==> ToDocument(ReloadDocument(data)) == ToDocument(data.fields) by {
      if data.JObj? {
        ClientNormalizationIsInvisible(data.fields);
      }
    }
    E.EditorState(ToDocument(ReloadDocument(data)), E.Appending)
  }

  /** Saving the editor's document and reloading gives the editor that same
      document back, with no edit in progress, whatever it was doing before. */
  lemma SaveThenReload(before: E.EditorState, d: Document)
    ensures var out := HandleSave(JObj(FromDocument(d)), true);
      && out.stored.Some?
      && Reload(before, HandleLoad(out.stored)) == E.EditorState(d, E.Appending)
  {
    SaveThenLoadRoundTrip(d);
  }

  /** The demo document as the pages read it. */
  const DemoDocument := Document(
    [Holding("ABC", 100.0, 50.0, 55.0, "Demo holding - Technology sector"),
     Holding("XYZ", 200.0, 30.0, 28.0, "Demo holding - Finance sector")],
    [LogEntry("2025-11-20", 15000.0), LogEntry("2025-11-21", 15250.0), LogEntry("2025-11-22", 15100.0),
     LogEntry("2025-11-23", 15500.0), LogEntry("2025-11-24", 15900.0), LogEntry("2025-11-25", 16100.0)],
    50000.0, 0.0, true)

  /** The demo object is the demo document written out, so it reads back as
      that document. */
  lemma DemoReadsAsDemoDocument()
    ensures DemoObject() == FromDocument(DemoDocument)
    ensures ToDocument(DemoObject()) == DemoDocument
  {
    DemoHoldingsWritten();
    DemoLogsWritten();
    ReadAfterWrite(DemoDocument);
  }

  lemma DemoHoldingsWritten()
    ensures DemoObject()[HoldingsKey] == FromDocument(DemoDocument)[HoldingsKey]
  {
    var hs := DemoDocument.holdings;
    var items := seq(|hs|, i requires 0 <= i < |hs| => HoldingJson(hs[i]));
    assert items == [HoldingJson(hs[0]), HoldingJson(hs[1])];
  }

  lemma DemoLogsWritten()
    ensures DemoObject()[LogsKey] == FromDocument(DemoDocument)[LogsKey]
  {
    var ls := DemoDocument.logs;
    var items := seq(|ls|, i requires 0 <= i < |ls| => LogJson(ls[i]));
    assert items == [LogJson(ls[0]), LogJson(ls[1]), LogJson(ls[2]), LogJson(ls[3]), LogJson(ls[4]), LogJson(ls[5])];
  }

  /** The demo document's figures: value 11,100 against a cost of 11,000, with
      50,000 in cash; no manual deposit, so the baseline is the cost; and the
      last two logs, 15,900 and 16,100, make a daily change of +200. */
  lemma DemoValuation()
    ensures var s := V.Summarize(ToDocument(DemoObject()));
      && s.portfolioValue == 11100.0 && s.totalCost == 11000.0 && s.baseline == 11000.0
      && s.totalWealth == 61100.0 && s.totalGain == 50100.0
      && V.DailyChange(ToDocument(DemoObject()).logs).amount == 200.0
  {
    DemoReadsAsDemoDocument();
    var s := V.Summarize(DemoDocument);
    assert s.portfolioValue == 11100.0 && s.totalCost == 11000.0;
  }
}
