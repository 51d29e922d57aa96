# Portfolio tracker: valuation, editor and document model in Dafny

The repository is a small portfolio tracker. One JSON document holds the
stock holdings, a daily log of the portfolio's total value, a cash balance,
an optional manual initial deposit and a switch that says whether the
public page shows the holdings table. The public page (`app_public.js`)
computes an account summary and two tables from that document. The admin
page (`app_admin.js`) edits the document in the browser. `api/save.php`
stores the document, filling in any missing fields. `admin_panel.php` loads
it for the admin page.

This project models three parts of that system:

- **The valuation.** Modules `Valuation` and `Editor.SidebarStats` cover
  portfolio value, cost basis, baseline, wealth, gain, the return and
  since-start percentages, per-holding rows, the daily change and the
  per-row log changes. The figures are exact rationals (`real`). Division by
  zero gives 0, as in the source's guards.
- **The editor.** Module `Editor`, with `Logs` and `Text`, covers every
  admin handler that changes the document, as a pure function on an
  `EditorState`. The editor state is the document plus what the form is
  doing: appending, or editing holding `i`. The source stores this as
  `editingIndex`, with `-1` for appending. Rejected input returns a
  `Failure` carrying the source's validation error.
- **The document as JSON.** Module `Storage` covers the decoded JSON value
  and the fill-ins made by the save endpoint, the admin page's loader and
  the admin script. It also covers how both pages read a decoded object as
  a typed `Portfolio.Document`, and the encoding back to JSON. Module
  `Session` covers the load endpoint, the admin script's reload and the
  demo document.

Module map:

| file | module | covers |
|---|---|---|
| common.dfy | Common | `Option`, `Result`, `Number(x) \|\| 0` on form input, `splice(i, 1)` |
| text.dfy | Text | `trim`, ASCII `toUpperCase`, string order |
| portfolio.dfy | Portfolio | the typed document |
| valuation.dfy | Valuation | the public page's figures and tables |
| logs.dfy | Logs | find-by-date, stable sort by date, upsert |
| editor.dfy | Editor | the admin handlers and the sidebar figures |
| storage.dfy | Storage | JSON values, save and load fill-ins, typed reading |
| session.dfy | Session | load endpoint, reload, demo document |

Behaviour worth knowing before reading the model:

- Adding a holding appends it without looking for the symbol, so two
  holdings may share a symbol (`Editor.AppendKeepsDuplicateSymbols`,
  `Editor.AddKeepsDuplicateSymbols`).
- The log is sorted with `new Date(a) - new Date(b)`. The model compares
  the date strings lexicographically. The two orders agree on well-formed
  `YYYY-MM-DD` dates, which is what the date input produces.
- `admin_panel.php` writes the loaded document into the page as a
  top-level `const initialData`. A top-level `const` does not become a
  property of `window`. So the admin script's `window.initialData` is
  undefined, and the script starts from its own default until a reload.
  `Storage.ClientInitialDocument` models the script's rule for whatever it
  is handed, and the default case covers this.

## Model

| member | source | states |
|---|---|---|
| Common.Coerce | assets/js/app_admin.js:391-393 | `Number(x) \|\| 0` on a form input: the reading is non-zero exactly when the input is a non-zero number, and then it is that number; an empty or non-numeric input reads as 0 |
| Common.RemoveAt | assets/js/app_admin.js:373 | `splice(i, 1)` with `i` in range removes exactly element `i`: the length drops by one, later elements shift down by one, earlier ones stay, and the multiset loses one copy of `xs[i]`. An index past the end changes nothing |
| Text.Trim | assets/js/app_admin.js:390 | The trimmed string is a contiguous piece of the input with no white space at either end, and everything cut off at either end is white space. It is empty exactly when the input is all white space |
| Text.TrimIdempotent | assets/js/app_admin.js:492 | Trimming a trimmed string changes nothing |
| Text.TrimAfterUpper | assets/js/app_admin.js:390 | Upper-casing then trimming gives the same string as trimming then upper-casing |
| Text.StrLeTransitive | assets/js/app_admin.js:506 | The date order used by the log sort is transitive |
| Text.StrLeTotal | assets/js/app_admin.js:506 | Any two dates are comparable in that order |
| Text.StrLeAntisymmetric | assets/js/app_admin.js:506 | Two dates each at most the other are the same date |
| Logs.FindDate | assets/js/app_admin.js:500 | `findIndex` by date gives None exactly when no entry has the date. Otherwise it gives the first position that has it |
| Logs.SortByDate | assets/js/app_admin.js:506 | Sorting by date gives a permutation of the log, of the same length, in ascending date order |
| Logs.SortSortedIsIdentity | assets/js/app_admin.js:506 | A log already in date order comes back unchanged |
| Logs.InsertOfDate | assets/js/app_admin.js:505-506 | Inserting into a sorted log adds the new entry after every entry of its date and leaves the entries of every other date as they were, in order |
| Logs.SortIsStable | assets/js/app_admin.js:506 | The sort is stable: for every date, the entries with that date come out in the order they went in, whatever the input |
| Logs.SortSnoc | assets/js/app_admin.js:505-506 | Pushing an entry and re-sorting is the same as inserting the entry into the sorted log, behind the entries with the same date |
| Logs.InsertSorted | assets/js/app_admin.js:505-506 | Inserting into a sorted log keeps it sorted |
| Logs.Upsert | assets/js/app_admin.js:500-506 | For a known date, only that entry's value changes: length and every date stay, and every other entry is unchanged. For a new date, the length grows by one, the result is a sorted permutation of the old log plus the new entry, and on a sorted log it is a single insertion |
| Logs.UpsertKeepsLogOrdered | assets/js/app_admin.js:500-506 | A sorted log with one entry per date stays sorted and date-unique after an upsert. It then holds the date with the new value |
| Logs.UpsertSameDateTwice | assets/js/app_admin.js:500-506 | Upserting the same date twice equals upserting the second value once |
| Logs.DeleteKeepsLogOrdered | assets/js/app_admin.js:483 | Deleting any row keeps a sorted, date-unique log sorted and date-unique |
| Valuation.Total | assets/js/app_public.js:137-146 | The accumulator starts at 0: no holdings sum to 0, and one holding sums to its own amount |
| Valuation.TotalSnoc | assets/js/app_public.js:140-146 | Each `forEach` step adds the next holding's `marketPrice * qty` (or `avgPrice * qty`) to the running total |
| Valuation.TotalPermutation | assets/js/app_public.js:140-146 | Portfolio value, cost basis and total gain are the same for any ordering of the same holdings |
| Valuation.GainLossIsValueMinusCost | assets/js/app_public.js:144-145 | Summed `(mp - avg) * qty` equals portfolio value minus total cost |
| Valuation.Percent | assets/js/app_public.js:153-154 | `den ? num/den*100 : 0` is 0 for a zero denominator and otherwise the exact percentage |
| Valuation.Summarize | assets/js/app_public.js:137-154 | Portfolio value is the sum of `marketPrice * qty` and cost the sum of `avgPrice * qty` over the holdings. Wealth is value plus cash. Gain is wealth minus baseline. The baseline is the deposit when the deposit is positive, else the cost. Return % is the percentage of gain over baseline (0 on a zero baseline). Since-start % is value minus cost as a percentage of cost (0 on zero cost) |
| Valuation.SummaryIgnoresHoldingOrder | assets/js/app_public.js:140-154 | Reordering the holdings leaves the whole summary unchanged |
| Valuation.SinceStartIgnoresCashAndDeposit | assets/js/app_public.js:154 | The since-start % does not depend on the cash balance or the manual deposit |
| Valuation.CashMovesWealthOnly | assets/js/app_public.js:148-152 | Changing the cash moves wealth and gain by the same amount. Value, cost, baseline and since-start % stay |
| Valuation.Row | assets/js/app_public.js:208-214 | A holding row's value is `marketPrice * qty` and its gain/loss is that value minus its cost. Its gain/loss % is 0 when the average price is 0, else the price change over the average price |
| Valuation.HoldingGainsAddUp | assets/js/app_public.js:208-214 | When the table is shown, its gain/loss column sums to portfolio value minus total cost |
| Valuation.ChangeBetween | assets/js/app_public.js:252-255 | A change's amount added to the earlier value gives the later value. Its % is 0 when the earlier value is 0, else the amount as a percentage of the earlier value |
| Valuation.DailyChange | assets/js/app_public.js:156-164 | Fewer than two logs give a zero change. Otherwise the amount is the last value minus the one before, taken by position. The % is 0 when that earlier value is 0, else the amount as a percentage of it |
| Valuation.LogRows | assets/js/app_public.js:247-258 | One row per log entry, with its date and value. The first row has no change. Row k has the change from row k-1: the amount added to the earlier value gives the later one, and the % is 0 when the earlier value is 0, else the amount as a percentage of it (`Valuation.ChangeBetween`) |
| Valuation.LastRowIsDailyChange | assets/js/app_public.js:252-256 | With two or more logs, the last row's change is the headline daily change |
| Valuation.ChangesTelescope | assets/js/app_public.js:252-256 | The row changes sum to the last value minus the first |
| Valuation.RenderPublic | assets/js/app_public.js:127-262 | The page shows the document's summary, its daily change and its log table whatever the switch says. The holdings table is present exactly when the switch is on, and then row i is the row of holding i, in document order |
| Valuation.VisibilityGatesOnlyHoldings | assets/js/app_public.js:130-191 | Flipping the switch changes the holdings table and nothing else on the page |
| Valuation.DailyChangeScenario | assets/js/app_public.js:159-164 | Logs of 100 then 110 give a daily change of +10, which is +10% |
| Valuation.SummaryScenario | assets/js/app_public.js:148-153 | 100 shares bought at 50, now at 55, plus 1000 cash: value 5500, wealth 6500, gain 1500, return 30% |
| Editor.NormalizedSymbolIsClean | assets/js/app_admin.js:390 | A normalised symbol has no lower-case ASCII letter and no white space at either end. Normalising it again changes nothing |
| Editor.SubmitHolding | assets/js/app_admin.js:389-408 | The call is rejected, with state unchanged, exactly when the trimmed upper-cased symbol is empty or the quantity reads as 0. When appending, it gives `old + [h]`. When editing, it replaces exactly the edited index and keeps the length. Either way it returns to append mode and changes no other field |
| Editor.SubmittedHoldingIsValid | assets/js/app_admin.js:390-399 | Every written holding has a non-empty, trimmed, upper-case symbol and a non-zero quantity |
| Editor.SubmitMovesTotals | assets/js/app_admin.js:401-408 | An append adds the new holding's amount to each total. An edit swaps the old holding's amount for the new one's |
| Editor.AppendKeepsDuplicateSymbols | assets/js/app_admin.js:405-406 | Appending a holding whose normalised symbol is already held keeps the old holding and adds a second one with the same symbol |
| Editor.AddKeepsDuplicateSymbols | assets/js/app_admin.js:405-406 | Adding " abc " when "ABC" is held gives two "ABC" holdings |
| Editor.EditSelect | assets/js/app_admin.js:378-381 | Edit puts the form on holding `i` and leaves the document alone |
| Editor.Cancel | assets/js/app_admin.js:419-424 | Cancel returns to append mode and leaves the document alone |
| Editor.SelectThenCancel | assets/js/app_admin.js:380-421 | Edit followed by Cancel gives back the document, in append mode |
| Editor.DeleteHolding | assets/js/app_admin.js:370-375 | Deleting an in-range row removes exactly that holding and keeps the order of the rest. The edit target is not touched |
| Editor.DeleteMovesTotals | assets/js/app_admin.js:373 | Deleting a holding takes its amount off each total |
| Editor.DeleteShiftsEditTarget | assets/js/app_admin.js:373-380 | Deleting a row before the edited one makes the unchanged index point at the following holding |
| Editor.DeleteCanStrandEditTarget | assets/js/app_admin.js:324-325 | Deleting the last holding while editing it leaves an edit target past the end. The page cannot then show the form |
| Editor.SubmitLog | assets/js/app_admin.js:491-508 | Rejected, with state unchanged, exactly when the trimmed date is empty or the value reads as 0. Otherwise the log becomes the upsert of the trimmed date and value, and nothing else changes |
| Editor.SubmitLogKeepsLogOrdered | assets/js/app_admin.js:500-506 | A sorted, date-unique log stays so through the Log Entry button |
| Editor.DeleteLog | assets/js/app_admin.js:480-485 | Deleting an in-range log row `i` removes exactly that entry and keeps the order of the rest. Nothing else changes, and an index past the end changes nothing |
| Editor.DeleteLogKeepsLogOrdered | assets/js/app_admin.js:483 | Deleting a log row keeps a sorted, date-unique log so |
| Editor.SetInitialDeposit | assets/js/app_admin.js:522-528 | Rejected, with state unchanged, exactly when the input reads as 0 or less. Otherwise only the deposit changes |
| Editor.AcceptedDepositIsBaseline | assets/js/app_admin.js:523-528 | An accepted deposit becomes the baseline of the summary |
| Editor.SetCashBalance | assets/js/app_admin.js:536-538 | Any value, negative included, becomes the cash balance. Nothing else changes |
| Editor.SetVisibility | assets/js/app_admin.js:546-547 | The switch takes the checkbox's value. Nothing else changes |
| Editor.SidebarStats | assets/js/app_admin.js:132-151 | The sidebar's accumulating loop yields the same value, cost, baseline, wealth, gain and return % as the public page's summary of the same document |
| Editor.AdminHoldingCells | assets/js/app_admin.js:286-290 | The admin table's value and gain/loss cells equal the public table's for the same holding |
| Storage.FillAll | api/save.php:22-26 | Filling a list of different keys in turn sets every one of them. Each unset key gets its default. Keys that are set, and keys outside the list, are kept |
| Storage.NormalizeForSave | api/save.php:21-26 | The five fields end up set and no key is lost. A missing or null `holdings`/`logs` becomes `[]`, `cashBalance`/`initialDeposit` becomes 0, and `showHoldingsPublic` becomes true. Set fields and all other keys keep their values |
| Storage.CompleteDocumentIsNotChanged | api/save.php:22-26 | The fill-ins leave a document with all five fields set as it is |
| Storage.NormalizeForSaveIdempotent | api/save.php:22-26 | Normalising twice equals normalising once |
| Storage.AsArray | api/save.php:13-15 | PHP's `is_array` on the decoded body: objects and lists are arrays, and every other value is not. An object is its own fields; a list becomes the array `Storage.ListAsObjectItems` and `Storage.ListAsObjectOnlyIndexes` describe |
| Storage.ListAsObjectItems | api/save.php:13-15 | A decoded list as a PHP array: item i sits under the key written `i` in decimal |
| Storage.ListAsObjectOnlyIndexes | api/save.php:13-15 | A decoded list as a PHP array has no other keys: each key is the decimal string of an index of the list |
| Storage.ListHasNoDocumentKeys | api/save.php:13-26 | A list body carries none of the five document fields, so `isset` fills in all five of them |
| Storage.HandleSave | api/save.php:13-38 | A body that is not an array gives 400 "Invalid JSON" and writes nothing. Otherwise `ok` is true exactly when the write succeeds: 200 with the normalised document stored, or 500 "Failed to save data" |
| Storage.Truthy | admin_panel.php:16 | The `?:` test: a value is false exactly when it is null, false, 0, "", "0", an empty list or an empty object |
| Storage.AdminPanelData | admin_panel.php:11-27 | A missing or false-valued file falls back to empty holdings and logs with cash and deposit 0. An array gets a missing or null `cashBalance`/`initialDeposit` set to 0 and everything else, `showHoldingsPublic` included, kept as is. A truthy scalar fails |
| Storage.PanelNormalizationIsInvisible | admin_panel.php:19-27 | The admin loader's fill-ins do not change the typed document |
| Storage.ClientInitialDocument | assets/js/app_admin.js:23-36 | Anything other than an object gives the script's five-field default. An object keeps every key, null values included. Only absent `cashBalance`/`initialDeposit` become 0 and an absent `showHoldingsPublic` becomes true |
| Storage.ReloadDocument | assets/js/app_admin.js:115-122 | A non-object reply gives the four-field default, without `initialDeposit`. An object keeps every key. Only an absent `cashBalance` becomes 0 and an absent `showHoldingsPublic` becomes true |
| Storage.ToDocument | assets/js/app_public.js:128-134 | How the pages read a decoded object: one holding and one log entry per list item, read field by field, and no items when the field is not a list. Cash and deposit read as `Number(x) \|\| 0`. The holdings are hidden exactly when `showHoldingsPublic` is the literal `false` |
| Storage.OnlyLiteralFalseHidesHoldings | assets/js/app_public.js:130 | The holdings are hidden exactly when the switch is the literal `false`. Missing, null, 0 and "" all show them |
| Storage.SaveNormalizationIsInvisible | api/save.php:22-26 | The save endpoint's defaults are what the pages already read for a missing field, so normalising does not change the typed document |
| Storage.ClientNormalizationIsInvisible | assets/js/app_admin.js:27-36 | Nor do the admin script's fill-ins, at start-up or on reload |
| Storage.FromDocument | assets/js/app_admin.js:89-93 | The JSON the admin script sends has all five fields set |
| Storage.ReadAfterWrite | assets/js/app_admin.js:89-93 | Encoding a document and reading it back gives the same document |
| Storage.SaveThenLoadRoundTrip | api/save.php:22-37 | Saving the editor's document succeeds, stores it unchanged and reads back as the same document |
| Session.HandleLoad | api/load.php:6-41 | The load endpoint returns the stored object as it is, or the demo document when there is no file |
| Session.Reload | assets/js/app_admin.js:111-123 | After a reload no edit is in progress. The editor holds the loaded object's typed document, or the empty document for a non-object reply |
| Session.SaveThenReload | assets/js/app_admin.js:84-123 | Saving and then reloading gives the editor back exactly the document it saved, in append mode, whatever it was doing before |
| Session.DemoReadsAsDemoDocument | api/load.php:11-39 | The demo object is exactly the demo document as the admin script would write it, so it reads back as that document |
| Session.DemoValuation | api/load.php:11-39 | The demo document: value 11,100, cost 11,000, baseline 11,000, wealth 61,100, gain 50,100, daily change +200 |

## Left out

- Rendering, Chart.js, message timers, `confirm` dialogs, exports and button states: these are display and browser plumbing. A confirmed delete is modelled; a cancelled `confirm` simply does not call the operation.
- `fetch`, the file system and sessions: the write outcome of the save endpoint is a boolean parameter, a missing data file is `None`, and the login check in `admin.php` is not part of this model.
- Floating point: numbers are exact rationals, so IEEE rounding, `NaN` and `Infinity` do not arise. Display formatting (`toFixed`, `toLocaleString`) is not modelled.
- String-to-number parsing: a form field is `None` when empty or not a number, and reads as 0. A JSON string in a numeric field also reads as 0. In the source it would be parsed, or concatenated into the public page's `cashBalance`. Likewise a one-element list such as `[5]` or `["7"]` in a numeric field reads as 0 in the model, while `Number` gives 5 or 7.
- `Number(l.value)` without `|| 0` in the log table and the daily change: a non-numeric value there would be `NaN`; the model reads it as 0.
- `toUpperCase` beyond ASCII: `Text.ToUpper` upper-cases `a`–`z` only.
- Key order in JSON objects and the exact bytes of `json_encode`/`JSON.stringify`: objects are maps.
- Storage.HandleSave: the stored document is the filled-in body as decoded. The endpoint decodes with `json_decode(..., true)` and writes with `json_encode` without `JSON_FORCE_OBJECT`, so a nested empty object `{}`, and a nested object whose keys are `"0"` to `"n-1"` in order, are written back as JSON lists. For example, `{"holdings":{}}` is stored as `"holdings":[]`, and `{"holdings":{"0":h}}` as `"holdings":[h]`, which the pages then read as one holding where the model reads none. Documents the admin script sends contain no such objects, so `Storage.SaveThenLoadRoundTrip` is unaffected.
- Storage.ClientInitialDocument: a top-level JSON array handed to the script is excluded by its precondition. The script would keep the array and lose the fields it adds when the array is next stringified.
- Storage.ReloadDocument: a top-level JSON array from the load endpoint is excluded for the same reason.
- Session.Reload: a top-level JSON array reply is excluded by its precondition, as for `Storage.ReloadDocument`.
- Session.Reload: the editor holds the typed reading of the loaded object, while the script keeps the raw object. The two differ only on documents the admin script did not itself produce: `api/save.php` stores any array body, filling in the five fields and otherwise changing at most the JSON type of some nested objects (see `Storage.HandleSave` below), so a body such as `{"holdings":[null]}` or `{"logs":"x"}` is stored too. With `holdings` or `logs` missing or null, the script's `push` and `findIndex` throw and nothing changes, where the model appends. A null list entry makes the public page throw, where the model reads zeros. Unknown keys, nulls and a missing `initialDeposit` after a non-object reply travel unchanged in the script's `JSON.stringify(state)`, while `Storage.FromDocument` always sends the five typed fields.
- Storage.ToDocument: a truthy `holdings` or `logs` value that is not a list reads as no items; in the source, `forEach` on it throws and the page does not render.
- Storage.AdminPanelData: the failure for a truthy scalar stands for PHP 8's error on assigning a field of a scalar; the page is not produced.
- Editor.SubmitHolding: requires that the form can be shown. With an edit target past the end of the holdings, rendering throws before the form exists (`Editor.DeleteCanStrandEditTarget` shows how that state arises).
- Logs.SortByDate: the sort compares dates as strings, which agrees with the source's `new Date(a.date) - new Date(b.date)` on well-formed `YYYY-MM-DD` dates only. A malformed date gives `NaN` there, the comparator is inconsistent and the resulting order is the engine's; `Logs.Upsert`, which sorts after adding a new date, inherits this.
- Text.StrLeTotal: the order is on strings; for malformed dates `new Date` gives `NaN` and the source's comparator is inconsistent, which is not modelled.
