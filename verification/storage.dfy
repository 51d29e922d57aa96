/** The document as decoded JSON, and the places that fill in its missing
    fields: the save endpoint before it writes the file, the admin page when it
    loads the file, and the admin script when it starts and when it reloads.
    Also the typed reading of a decoded document that both pages' valuation
    works from, and the encoding of a typed document back to JSON. */
module Storage {
  import opened Common
  import opened Portfolio

  /** A decoded JSON value. */
  datatype Json =
    | JNull
    | JBool(b: bool)
    | JNum(n: real)
    | JStr(s: string)
    | JArr(items: seq<Json>)
    | JObj(fields: map<string, Json>)

  /** A decoded JSON object, which is also what PHP's `json_decode($s, true)`
      turns an object into. */
  type Object = map<string, Json>

  const HoldingsKey := "holdings"
  const LogsKey := "logs"
  const CashKey := "cashBalance"
  const DepositKey := "initialDeposit"
  const ShowKey := "showHoldingsPublic"

  // ---------------------------------------------------------------------------
  // The server side: PHP arrays and `isset`.

  /** PHP's `isset($a[$k])`: the key is present and its value is not null. */
  predicate IsSet(m: Object, k: string)
  {
    k in m && m[k] != JNull
  }

  /** `if (!isset($a[$k])) $a[$k] = $d;` */
  function FillIfUnset(m: Object, k: string, d: Json): (r: Object)
    requires d != JNull
    ensures r.Keys == m.Keys + {k}
    ensures IsSet(r, k) && (!IsSet(m, k) ==> r[k] == d)
    ensures forall j :: j in m && (j != k || IsSet(m, k)) ==> r[j] == m[j]
  {
    if IsSet(m, k) then m else m[k := d]
  }

  /** The five field names have different lengths, so no two are equal. */
  lemma FieldNamesDistinct()
    ensures |HoldingsKey| == 8 && |LogsKey| == 4 && |CashKey| == 11 && |DepositKey| == 14 && |ShowKey| == 18
  {
  }

  /** The five fields the save endpoint guarantees. */
  predicate IsSaveField(k: string)
  {
    k == HoldingsKey || k == LogsKey || k == CashKey || k == DepositKey || k == ShowKey
  }

  /** True when every field the save endpoint fills in is already set. */
  predicate SaveComplete(m: Object)
  {
    IsSet(m, HoldingsKey) && IsSet(m, LogsKey) && IsSet(m, CashKey) && IsSet(m, DepositKey) && IsSet(m, ShowKey)
  }

  /** The save endpoint's defaults, in the order it fills them. */
  function SaveDefaults(): seq<(string, Json)>
  {
    [(HoldingsKey, JArr([])), (LogsKey, JArr([])), (CashKey, JNum(0.0)), (DepositKey, JNum(0.0)), (ShowKey, JBool(true))]
  }

  function KeysOf(ds: seq<(string, Json)>): (r: set<string>)
    ensures forall i :: 0 <= i < |ds| ==> ds[i].0 in r
  {
    if |ds| == 0 then {} else {ds[0].0} + KeysOf(ds[1..])
  }

  /** `FillIfUnset` for each key and default of `ds` in turn. When the keys
      are different, every one of them ends up set, each one that was unset
      to its default, and every other entry is kept. */
  function FillAll(m: Object, ds: seq<(string, Json)>): (r: Object)
    requires forall i :: 0 <= i < |ds| ==> ds[i].1 != JNull
    ensures r.Keys == m.Keys + KeysOf(ds)
    ensures forall k :: k in KeysOf(ds) ==> IsSet(r, k)
    ensures forall k :: k in m && (k !in KeysOf(ds) || IsSet(m, k)) ==> r[k] == m[k]
    ensures (forall i, j :: 0 <= i < j < |ds| ==> ds[i].0 != ds[j].0) ==>
      forall i :: 0 <= i < |ds| && !IsSet(m, ds[i].0) ==> r[ds[i].0] == ds[i].1
    decreases |ds|
  {
    if |ds| == 0 then m
    else
      var m1 := FillIfUnset(m, ds[0].0, ds[0].1);
      var r := FillAll(m1, ds[1..]);
      assert forall i :: 1 <= i < |ds| ==> ds[1..][i - 1] == ds[i];
      r
  }

  /** The save endpoint's fill-in: a missing or null `holdings` or `logs`
      becomes an empty list, a missing or null `cashBalance` or
      `initialDeposit` becomes 0, a missing or null `showHoldingsPublic`
      becomes true; every field that is set, and every other key whatever its
      value, is kept. */
  function NormalizeForSave(m: Object): (r: Object)
    ensures r.Keys == m.Keys + {HoldingsKey, LogsKey, CashKey, DepositKey, ShowKey}
    ensures SaveComplete(r)
    ensures !IsSet(m, HoldingsKey) ==> r[HoldingsKey] == JArr([])
    ensures !IsSet(m, LogsKey) ==> r[LogsKey] == JArr([])
    ensures !IsSet(m, CashKey) ==> r[CashKey] == JNum(0.0)
    ensures !IsSet(m, DepositKey) ==> r[DepositKey] == JNum(0.0)
    ensures !IsSet(m, ShowKey) ==> r[ShowKey] == JBool(true)
    ensures forall k :: k in m && (!IsSaveField(k) || IsSet(m, k)) ==> r[k] == m[k]
  {
    SaveDefaultsFacts();
    FillAll(m, SaveDefaults())
  }

  lemma SaveDefaultsFacts()
    ensures forall i :: 0 <= i < |SaveDefaults()| ==> SaveDefaults()[i].1 != JNull
    ensures KeysOf(SaveDefaults()) == {HoldingsKey, LogsKey, CashKey, DepositKey, ShowKey}
    ensures forall k :: k in KeysOf(SaveDefaults()) <==> IsSaveField(k)
    ensures forall i, j :: 0 <= i < j < |SaveDefaults()| ==> SaveDefaults()[i].0 != SaveDefaults()[j].0
    ensures SaveDefaults()[0].0 == HoldingsKey && SaveDefaults()[1].0 == LogsKey && SaveDefaults()[2].0 == CashKey
    ensures SaveDefaults()[3].0 == DepositKey && SaveDefaults()[4].0 == ShowKey
  {
    FieldNamesDistinct();
    var ds := SaveDefaults();
    assert KeysOf(ds[4..]) == {ShowKey};
    assert KeysOf(ds[3..]) == {DepositKey, ShowKey};
    assert KeysOf(ds[2..]) == {CashKey, DepositKey, ShowKey};
    assert KeysOf(ds[1..]) == {LogsKey, CashKey, DepositKey, ShowKey};
  }

  /** The fill-ins leave a document with every field set as it is. */
  lemma CompleteDocumentIsNotChanged(m: Object)
    requires SaveComplete(m)
    ensures NormalizeForSave(m) == m
  {
    SaveDefaultsFacts();
    FillAllWhenSet(m, SaveDefaults());
  }

  lemma FillAllWhenSet(m: Object, ds: seq<(string, Json)>)
    requires forall i :: 0 <= i < |ds| ==> ds[i].1 != JNull
    requires forall i :: 0 <= i < |ds| ==> IsSet(m, ds[i].0)
    ensures FillAll(m, ds) == m
    decreases |ds|
  {
    if |ds| > 0 {
      assert forall i :: 0 <= i < |ds[1..]| ==> ds[1..][i] == ds[i + 1];
      FillAllWhenSet(m, ds[1..]);
    }
  }

  /** Filling in twice is filling in once. */
  lemma NormalizeForSaveIdempotent(m: Object)
    ensures NormalizeForSave(NormalizeForSave(m)) == NormalizeForSave(m)
  {
    CompleteDocumentIsNotChanged(NormalizeForSave(m));
  }

  /** The decimal digits of `n`, as PHP writes an integer array key. */
  function DecimalString(n: nat): (r: string)
    ensures |r| > 0
    ensures forall k :: 0 <= k < |r| ==> IsDigit(r[k])
  {
    if n < 10 then ["0123456789"[n]] else DecimalString(n / 10) + ["0123456789"[n % 10]]
  }

  predicate IsDigit(c: char)
  {
    '0' <= c <= '9'
  }

  /** The number a string of decimal digits denotes. */
  function DigitsValue(s: string): nat
  {
    if |s| == 0 then 0
    else DigitsValue(s[..|s| - 1]) * 10 + (if IsDigit(s[|s| - 1]) then s[|s| - 1] as int - '0' as int else 0)
  }

  /** Reading the digits back gives the number, so distinct indices are
      distinct keys. */
  lemma {:induction false} DecimalStringRoundTrip(n: nat)
    ensures DigitsValue(DecimalString(n)) == n
  {
    var r := DecimalString(n);
    if n >= 10 {
      DecimalStringRoundTrip(n / 10);
      assert r[..|r| - 1] == DecimalString(n / 10);
    }
  }

  /** A decoded JSON list as a PHP array: its items under the keys 0, 1, 2, ... */
  function ListAsObject(items: seq<Json>): Object
  {
    if |items| == 0 then map[]
    else ListAsObject(items[..|items| - 1])[DecimalString(|items| - 1) := items[|items| - 1]]
  }

  /** Item `i` of a list sits under the key `DecimalString(i)`. */
  lemma {:induction false} ListAsObjectItems(items: seq<Json>, i: nat)
    requires i < |items|
    ensures DecimalString(i) in ListAsObject(items)
    ensures ListAsObject(items)[DecimalString(i)] == items[i]
  {
    var n := |items| - 1;
    if i < n {
      ListAsObjectItems(items[..n], i);
      assert items[..n][i] == items[i];
      DecimalStringRoundTrip(i);
      DecimalStringRoundTrip(n);
    }
  }

  /** Every key of a list is the decimal string of one of its indices. */
  lemma {:induction false} ListAsObjectOnlyIndexes(items: seq<Json>, k: string)
    requires k in ListAsObject(items)
    ensures DigitsValue(k) < |items|
    ensures DecimalString(DigitsValue(k)) == k
  {
    var n := |items| - 1;
    if k == DecimalString(n) {
      DecimalStringRoundTrip(n);
    } else {
      ListAsObjectOnlyIndexes(items[..n], k);
    }
  }

  /** A list's keys are digit strings, so a top-level list carries none of the
      five document fields. */
  lemma ListHasNoDocumentKeys(items: seq<Json>)
    ensures forall k :: k in ListAsObject(items) ==> 0 < |k| && IsDigit(k[0])
    ensures HoldingsKey !in ListAsObject(items) && LogsKey !in ListAsObject(items)
    ensures CashKey !in ListAsObject(items) && DepositKey !in ListAsObject(items)
    ensures ShowKey !in ListAsObject(items)
  {
    forall k | k in ListAsObject(items)
      ensures 0 < |k| && IsDigit(k[0])
    {
      ListAsObjectOnlyIndexes(items, k);
    }
  }

  /** PHP's `is_array` on a decoded value: objects and lists are arrays,
      everything else is not. */
  function AsArray(j: Json): (r: Option<Object>)
    ensures r.Some? <==> j.JObj? || j.JArr?
    ensures j.JObj? ==> r == Some(j.fields)
    ensures j.JArr? ==> r == Some(ListAsObject(j.items))
  {
    match j
    case JObj(m) => Some(m)
    case JArr(items) => Some(ListAsObject(items))
    case _ => None
  }

  /** The endpoint's JSON reply with its HTTP status. */
  datatype Response = Response(status: nat, ok: bool, text: string)

  /** What a save request leaves behind: the reply, and the document the data
      file now holds when the write happened. */
  datatype SaveOutcome = SaveOutcome(response: Response, stored: Option<Object>)

  /** The save endpoint. `body` is the decoded request body (a body that does
      not parse decodes to null); `writeSucceeds` is whether writing the data
      file works. The stored value is the filled-in body as decoded; PHP's
      re-encoding of nested empty or list-like objects as lists is not
      modelled. */
  function HandleSave(body: Json, writeSucceeds: bool): (r: SaveOutcome)
    ensures AsArray(body).None? ==> r.response == Response(400, false, "Invalid JSON") && r.stored.None?
    ensures r.response.ok <==> r.stored.Some?
    ensures r.response.ok <==> AsArray(body).Some? && writeSucceeds
    ensures r.stored.Some? ==> r.stored.value == NormalizeForSave(AsArray(body).value) && SaveComplete(r.stored.value)
    ensures AsArray(body).Some? && !writeSucceeds ==> r.response == Response(500, false, "Failed to save data")
    ensures r.response.ok ==> r.response == Response(200, true, "Data saved successfully")
  {
    match AsArray(body)
    case None => SaveOutcome(Response(400, false, "Invalid JSON"), None)
    case Some(m) =>
      if writeSucceeds then SaveOutcome(Response(200, true, "Data saved successfully"), Some(NormalizeForSave(m)))
      else SaveOutcome(Response(500, false, "Failed to save data"), None)
  }

  /** PHP truthiness of a decoded value, which the admin page's `?:` tests:
      null, false, 0, "", "0" and an empty array are false. */
  predicate Truthy(j: Json)
    ensures Truthy(j) <==> j !in {JNull, JBool(false), JNum(0.0), JStr(""), JStr("0"), JArr([]), JObj(map[])}
  {
    match j
    case JNull => false
    case JBool(b) => b
    case JNum(n) => n != 0.0
    case JStr(s) => s != "" && s != "0"
    case JArr(items) => |items| > 0
    case JObj(m) => |m| > 0
  }

  /** The admin page's starting data when the file is missing or decodes to
      something false. */
  const PanelFallback: Object := map[HoldingsKey := JArr([]), LogsKey := JArr([]), CashKey := JNum(0.0)]

  /** A truthy scalar in the data file makes PHP fail on the first field
      assignment, and the admin page is not produced. */
  datatype PanelError = ScalarDocument

  /** The admin page's load: `stored` is None when the data file does not
      exist, else the decoded file (null when it does not parse). A false
      result falls back to empty holdings and logs with no cash; then a missing
      or null `cashBalance` and `initialDeposit` become 0. Nothing else is
      filled, `showHoldingsPublic` included. */
  function AdminPanelData(stored: Option<Json>): (r: Result<Object, PanelError>)
    ensures (stored.None? || !Truthy(stored.value)) ==>
      r == Success(map[HoldingsKey := JArr([]), LogsKey := JArr([]), CashKey := JNum(0.0), DepositKey := JNum(0.0)])
    ensures stored.Some? && Truthy(stored.value) ==> (r.Failure? <==> AsArray(stored.value).None?)
    ensures stored.Some? && Truthy(stored.value) && r.Success? ==>
      var m := AsArray(stored.value).value;
      && r.value.Keys == m.Keys + {CashKey, DepositKey}
      && IsSet(r.value, CashKey) && IsSet(r.value, DepositKey)
      && (!IsSet(m, CashKey) ==> r.value[CashKey] == JNum(0.0))
      && (!IsSet(m, DepositKey) ==> r.value[DepositKey] == JNum(0.0))
      && (forall k :: k in m && ((k != CashKey && k != DepositKey) || IsSet(m, k)) ==> r.value[k] == m[k])
  {
    var data := match stored
      case None => JObj(PanelFallback)
      case Some(j) => if Truthy(j) then j else JObj(PanelFallback);
    match AsArray(data)
    case None => Failure(ScalarDocument)
    case Some(m) => Success(FillIfUnset(FillIfUnset(m, CashKey, JNum(0.0)), DepositKey, JNum(0.0)))
  }

  // ---------------------------------------------------------------------------
  // The browser side: JavaScript objects and `typeof x === 'undefined'`.

  /** `if (typeof o.k === 'undefined') o.k = d;` on a parsed JSON object: only
      an absent key is filled; a null value stays. */
  function FillIfMissing(m: Object, k: string, d: Json): Object
  {
    if k in m then m else m[k := d]
  }

  /** The admin script's own default document. */
  const ClientDefault: Object := map[
    HoldingsKey := JArr([]), LogsKey := JArr([]), CashKey := JNum(0.0),
    DepositKey := JNum(0.0), ShowKey := JBool(true)]

  /** The admin script's starting document: a copy of the object it was
      handed, or its default when it was handed something that is not an
      object (an absent value is JNull here); then an absent `cashBalance` or
      `initialDeposit` becomes 0 and an absent `showHoldingsPublic` becomes
      true. Present keys, null ones included, are kept. */
  function ClientInitialDocument(handed: Json): (r: Object)
    requires !handed.JArr?
    ensures !handed.JObj? ==> r == ClientDefault
    ensures handed.JObj? ==>
      && r.Keys == handed.fields.Keys + {CashKey, DepositKey, ShowKey}
      && (forall k :: k in handed.fields ==> r[k] == handed.fields[k])
      && (CashKey !in handed.fields ==> r[CashKey] == JNum(0.0))
      && (DepositKey !in handed.fields ==> r[DepositKey] == JNum(0.0))
      && (ShowKey !in handed.fields ==> r[ShowKey] == JBool(true))
  {
    var m := match handed case JObj(m) => m case _ => ClientDefault;
    FillIfMissing(FillIfMissing(FillIfMissing(m, CashKey, JNum(0.0)), DepositKey, JNum(0.0)), ShowKey, JBool(true))
  }

  /** The admin script's document after a reload from the server: an object
      is taken as it is, anything else is replaced by a default with no
      `initialDeposit`; then an absent `cashBalance` becomes 0 and an absent
      `showHoldingsPublic` becomes true. `initialDeposit` is not filled here. */
  function ReloadDocument(data: Json): (r: Object)
    requires !data.JArr?
    ensures !data.JObj? ==> r == map[HoldingsKey := JArr([]), LogsKey := JArr([]), CashKey := JNum(0.0), ShowKey := JBool(true)]
    ensures data.JObj? ==>
      && r.Keys == data.fields.Keys + {CashKey, ShowKey}
      && (forall k :: k in data.fields ==> r[k] == data.fields[k])
      && (CashKey !in data.fields ==> r[CashKey] == JNum(0.0))
      && (ShowKey !in data.fields ==> r[ShowKey] == JBool(true))
  {
    var m := match data
      case JObj(m) => m
      case _ => map[HoldingsKey := JArr([]), LogsKey := JArr([]), CashKey := JNum(0.0), ShowKey := JBool(true)];
    FillIfMissing(FillIfMissing(m, CashKey, JNum(0.0)), ShowKey, JBool(true))
  }

  // ---------------------------------------------------------------------------
  // Reading a decoded document as the valuation sees it, and writing one.

  function Field(m: Object, k: string): Option<Json>
  {
    if k in m then Some(m[k]) else None
  }

  /** `Number(x) || 0` on a JSON value: a number is itself, `true` is 1, and
      anything else (missing, null, false, an object, a string, a list) is 0.
      `Number` itself parses a numeric string and a one-element list such as
      `[5]`; those readings are not modelled. */
  function NumberOrZero(x: Option<Json>): real
  {
    match x
    case Some(JNum(n)) => n
    case Some(JBool(true)) => 1.0
    case _ => 0.0
  }

  function TextOrEmpty(x: Option<Json>): string
  {
    match x
    case Some(JStr(s)) => s
    case _ => ""
  }

  /** `data.k || []` on a list field: the list, or no items. */
  function ItemsOf(x: Option<Json>): seq<Json>
  {
    match x
    case Some(JArr(items)) => items
    case _ => []
  }

  function ToHolding(j: Json): Holding
  {
    match j
    case JObj(f) =>
      Holding(TextOrEmpty(Field(f, "symbol")), NumberOrZero(Field(f, "qty")), NumberOrZero(Field(f, "avgPrice")),
              NumberOrZero(Field(f, "marketPrice")), TextOrEmpty(Field(f, "notes")))
    case _ => Holding("", 0.0, 0.0, 0.0, "")
  }

  function ToLogEntry(j: Json): LogEntry
  {
    match j
    case JObj(f) => LogEntry(TextOrEmpty(Field(f, "date")), NumberOrZero(Field(f, "value")))
    case _ => LogEntry("", 0.0)
  }

  /** The document as the dashboards read a decoded object: list fields as
      lists (no list is no items), numbers coerced, and the holdings shown
      unless `showHoldingsPublic` is literally `false`. */
  function ToDocument(m: Object): (d: Document)
    ensures |d.holdings| == |ItemsOf(Field(m, HoldingsKey))| && |d.logs| == |ItemsOf(Field(m, LogsKey))|
    ensures forall i :: 0 <= i < |d.holdings| ==> d.holdings[i] == ToHolding(ItemsOf(Field(m, HoldingsKey))[i])
    ensures forall i :: 0 <= i < |d.logs| ==> d.logs[i] == ToLogEntry(ItemsOf(Field(m, LogsKey))[i])
    ensures d.cashBalance == NumberOrZero(Field(m, CashKey))
    ensures d.initialDeposit == NumberOrZero(Field(m, DepositKey))
    ensures !d.showHoldingsPublic <==> ShowKey in m && m[ShowKey] == JBool(false)
  {
    var hs := ItemsOf(Field(m, HoldingsKey));
    var ls := ItemsOf(Field(m, LogsKey));
    Document(
      seq(|hs|, i requires 0 <= i < |hs| => ToHolding(hs[i])),
      seq(|ls|, i requires 0 <= i < |ls| => ToLogEntry(ls[i])),
      NumberOrZero(Field(m, CashKey)),
      NumberOrZero(Field(m, DepositKey)),
      Field(m, ShowKey) != Some(JBool(false)))
  }

  /** Only a literal `false` hides the holdings: a missing or null flag shows
      them, and so do other false-looking values such as 0 or "". */
  lemma OnlyLiteralFalseHidesHoldings(m: Object)
    ensures !ToDocument(m).showHoldingsPublic <==> ShowKey in m && m[ShowKey] == JBool(false)
    ensures ToDocument(m[ShowKey := JNull]).showHoldingsPublic
    ensures ToDocument(m[ShowKey := JNum(0.0)]).showHoldingsPublic
    ensures ToDocument(m[ShowKey := JStr("")]).showHoldingsPublic
    ensures ToDocument(m - {ShowKey}).showHoldingsPublic
  {
  }

  /** Two objects read alike when every field the dashboards use reads the
      same in both. */
  predicate ReadAlike(a: Object, b: Object)
  {
    && ItemsOf(Field(a, HoldingsKey)) == ItemsOf(Field(b, HoldingsKey))
    && ItemsOf(Field(a, LogsKey)) == ItemsOf(Field(b, LogsKey))
    && NumberOrZero(Field(a, CashKey)) == NumberOrZero(Field(b, CashKey))
    && NumberOrZero(Field(a, DepositKey)) == NumberOrZero(Field(b, DepositKey))
    && (Field(a, ShowKey) == Some(JBool(false)) <==> Field(b, ShowKey) == Some(JBool(false)))
  }

  lemma ReadAlikeSameDocument(a: Object, b: Object)
    requires ReadAlike(a, b)
    ensures ToDocument(a) == ToDocument(b)
  {
  }

  /** Filling a missing or null field with the value the dashboards already
      read for it does not change what they read. */
  lemma FillWithReadingIsInvisible(m: Object, k: string, d: Json)
    requires d != JNull
    requires (k == HoldingsKey || k == LogsKey) ==> d == JArr([])
    requires (k == CashKey || k == DepositKey) ==> d == JNum(0.0)
    requires k == ShowKey ==> d == JBool(true)
    ensures ReadAlike(FillIfUnset(m, k, d), m)
  {
  }

  /** The save endpoint's fill-in changes nothing either page computes: the
      defaults it writes are what the pages read for a missing or null field. */
  lemma SaveNormalizationIsInvisible(m: Object)
    ensures ToDocument(NormalizeForSave(m)) == ToDocument(m)
  {
    FillAllIsInvisible(m, SaveDefaults());
    ReadAlikeSameDocument(NormalizeForSave(m), m);
  }

  lemma FillAllIsInvisible(m: Object, ds: seq<(string, Json)>)
    requires forall i :: 0 <= i < |ds| ==> ds[i].1 != JNull
    requires forall i :: 0 <= i < |ds| ==> ((ds[i].0 == HoldingsKey || ds[i].0 == LogsKey) ==> ds[i].1 == JArr([]))
    requires forall i :: 0 <= i < |ds| ==> ((ds[i].0 == CashKey || ds[i].0 == DepositKey) ==> ds[i].1 == JNum(0.0))
    requires forall i :: 0 <= i < |ds| ==> (ds[i].0 == ShowKey ==> ds[i].1 == JBool(true))
    ensures ReadAlike(FillAll(m, ds), m)
    decreases |ds|
  {
    if |ds| > 0 {
      var m1 := FillIfUnset(m, ds[0].0, ds[0].1);
      FillWithReadingIsInvisible(m, ds[0].0, ds[0].1);
      FillAllIsInvisible(m1, ds[1..]);
    }
  }

  /** Neither does the admin page's fill-in. */
  lemma PanelNormalizationIsInvisible(j: Json)
    requires Truthy(j) && AsArray(j).Some?
    ensures ToDocument(AdminPanelData(Some(j)).value) == ToDocument(AsArray(j).value)
  {
    var m := AsArray(j).value;
    var r := AdminPanelData(Some(j)).value;
    assert Field(r, HoldingsKey) == Field(m, HoldingsKey);
    assert Field(r, LogsKey) == Field(m, LogsKey);
  }

  lemma FillMissingWithReadingIsInvisible(m: Object, k: string, d: Json)
    requires (k == HoldingsKey || k == LogsKey) ==> d == JArr([])
    requires (k == CashKey || k == DepositKey) ==> d == JNum(0.0)
    requires k == ShowKey ==> d == JBool(true)
    ensures ReadAlike(FillIfMissing(m, k, d), m)
  {
  }

  /** Nor do the admin script's fill-ins, at start-up or after a reload. */
  lemma ClientNormalizationIsInvisible(m: Object)
    ensures ToDocument(ClientInitialDocument(JObj(m))) == ToDocument(m)
    ensures ToDocument(ReloadDocument(JObj(m))) == ToDocument(m)
  {
    var m1 := FillIfMissing(m, CashKey, JNum(0.0));
    var m2 := FillIfMissing(m1, DepositKey, JNum(0.0));
    var m3 := FillIfMissing(m2, ShowKey, JBool(true));
    FillMissingWithReadingIsInvisible(m, CashKey, JNum(0.0));
    FillMissingWithReadingIsInvisible(m1, DepositKey, JNum(0.0));
    FillMissingWithReadingIsInvisible(m2, ShowKey, JBool(true));
    ReadAlikeSameDocument(m3, m);
    FillMissingWithReadingIsInvisible(m1, ShowKey, JBool(true));
    ReadAlikeSameDocument(FillIfMissing(m1, ShowKey, JBool(true)), m);
  }

  /** The typed document written back as a JSON object, with every field set. */
  function HoldingJson(h: Holding): Json
  {
    JObj(map["symbol" := JStr(h.symbol), "qty" := JNum(h.qty), "avgPrice" := JNum(h.avgPrice),
             "marketPrice" := JNum(h.marketPrice), "notes" := JStr(h.notes)])
  }

  function LogJson(e: LogEntry): Json
  {
    JObj(map["date" := JStr(e.date), "value" := JNum(e.value)])
  }

  function FromDocument(d: Document): (m: Object)
    ensures SaveComplete(m)
  {
    map[
      HoldingsKey := JArr(seq(|d.holdings|, i requires 0 <= i < |d.holdings| => HoldingJson(d.holdings[i]))),
      LogsKey := JArr(seq(|d.logs|, i requires 0 <= i < |d.logs| => LogJson(d.logs[i]))),
      CashKey := JNum(d.cashBalance),
      DepositKey := JNum(d.initialDeposit),
      ShowKey := JBool(d.showHoldingsPublic)]
  }

  /** Writing a document out and reading it back gives the same document. */
  lemma ReadAfterWrite(d: Document)
    ensures ToDocument(FromDocument(d)) == d
  {
    var d' := ToDocument(FromDocument(d));
    assert d'.holdings == d.holdings;
    assert d'.logs == d.logs;
  }

  /** Saving the editor's document and loading it again returns it unchanged:
      the endpoint stores it exactly as sent, and it reads back as the same
      document. */
  lemma SaveThenLoadRoundTrip(d: Document)
    ensures var out := HandleSave(JObj(FromDocument(d)), true);
      && out.response.ok
      && out.stored == Some(FromDocument(d))
      && ToDocument(out.stored.value) == d
  {
    CompleteDocumentIsNotChanged(FromDocument(d));
    ReadAfterWrite(d);
  }
}
