# Monexa ledger core in Dafny

Monexa is a local-only expense tracker. Its state is a list of expense
records, a registry of upper-case category labels, a daily and monthly
budget, a currency code, a theme id, a device id and an onboarding flag.
The screens compute everything else from that state. This project lifts
that logic out of the React components into pure Dafny functions over
sequences and proves what each one promises:

- the ledger operations: add (prepend), delete (filter by id), today's
  total, factory reset, backup export and field-by-field import;
- the category registry edits shared by the settings screen and the
  onboarding tag step: add (upper-cased, skipped when present), remove,
  shuffle;
- the budget field edits, where a value is the parse result or 0;
- the entry form's submit rule and the daily-buffer widget;
- the history screen: records grouped by date, newest date first, with
  day totals;
- the analytics screen: lifetime total, guarded average, category
  breakdown, seven-day bars, month-to-date total and remaining budget, and
  the recurring-payment detector;
- the onboarding step counter and its currency search.

Amounts are `real`, so sums are exact. The clock comes in as
parameters: today's date, the `YYYY-MM` month prefix, the date text of
"i days ago", and the instant of a date text. Fresh ids, timestamps and
the shuffle's random choices are parameters too.

Modules follow the program's structure:

- `Seqs` and `Text` hold the generic vocabulary (filter, sums, a stable
  descending sort, ASCII case mapping, substring search).
- `Types` holds the records.
- `Ledger` holds the ledger operations.
- `App` holds the persisted state, export/import and reset.
- `Registry`, `Settings`, `Onboarding`, `EntryForm`, `History` and
  `Analytics` each model one screen.

## Model

| member | source | states |
|---|---|---|
| Types.Stamp | types.ts:1-8 | a stored expense is the caller's four fields plus the ledger-chosen id and timestamp; removing those two gives back the caller's draft |
| Types.StampUnstamp | types.ts:1-8 | every expense is exactly its own draft stamped with its own id and timestamp |
| Types.ParseOrZero | components/Settings.tsx:85 | the parse-or-zero rule: text that does not parse gives 0, and a parsed number is returned as it is, negatives included; a non-zero result is always the parsed number; the monthly field (line 94) and the onboarding budget step (components/Onboarding.tsx:42-43) use the same rule |
| Types.DefaultCategories | types.ts:32-34 | the default registry has seven labels, pairwise distinct, each already upper case, so upper-casing leaves it unchanged |
| Ledger.Total | components/Analytics.tsx:14 | the lifetime total is 0 for an empty ledger and never negative when no amount is |
| Ledger.Reduce | components/Analytics.tsx:14 | the `reduce` that adds amounts from the first record to the last, starting from a running sum, ends at that sum plus the lifetime total |
| Ledger.TotalAppend | components/Analytics.tsx:14 | the lifetime total of two ledgers joined together is the sum of their totals |
| Ledger.DayTotal | App.tsx:31-36 | today's total equals the record-by-record sum in which only records dated today count, and is 0 for an empty ledger |
| Ledger.DayTotalByRecord | App.tsx:31-36 | today's total (filter by date, then sum) equals the record-by-record sum in which only records dated today count; it is 0 for an empty ledger |
| Ledger.KeysOf | components/History.tsx:15-19 | the keys of the grouping object are each record's key, listed once, and nothing else |
| Ledger.GroupsPartition | components/Analytics.tsx:17-24 | groups over distinct keys that cover every record partition the ledger: their totals add up to the lifetime total and their sizes to the number of records |
| Ledger.AddExpense | App.tsx:39-46 | the new record goes first with the caller's fields, the given id and timestamp; the old records follow unchanged and in order; a fresh id keeps ids unique |
| Ledger.DeleteExpense | App.tsx:48-50 | every copy of each record with a different id survives and no record with the id does, in their old relative order; deleting an id nobody has changes nothing |
| Ledger.DeleteTwice | App.tsx:48-50 | deleting the same id twice is deleting it once |
| Ledger.DeleteUndoesAdd | App.tsx:39-50 | deleting a just-added record with a fresh id restores the ledger |
| Ledger.AddExpenseTotals | App.tsx:31-45 | adding a record raises the lifetime total by its amount, and today's total by its amount exactly when it is dated today |
| Ledger.DeleteKeepsUniqueIds | App.tsx:48-50 | a delete keeps record ids unique |
| App.FirstRun | App.tsx:16-26 | a first run starts with an empty ledger, the seven default labels, no limits, the 'ink-white' theme, US dollars, the freshly generated device id and onboarding pending |
| App.ExportData | App.tsx:52-53 | the backup carries the ledger, registry, budget, currency and device id as they are; the theme and onboarding flag are not part of it |
| App.FindTheme | App.tsx:29 | the lookup returns the first theme with the id, or reports that none has it |
| App.CurrentTheme | App.tsx:29 | the current theme is the first one whose id matches, else the first theme of the table |
| App.ImportData | App.tsx:62-73 | an unparsable document changes nothing and reports corruption; otherwise each field is applied on its own: arrays replace the ledger and registry, a present budget and a non-empty currency replace theirs, and the theme, device id and onboarding flag never change |
| App.ExportImportRoundTrip | App.tsx:52-68 | re-importing an exported backup restores the exporter's ledger, registry, budget and currency and keeps the importer's theme, device id and onboarding flag |
| App.EmptyCurrencyNotRestored | App.tsx:68 | an empty currency in a backup is falsy and is not restored |
| App.ImportWithoutBudget | App.tsx:65-67 | a document without a budget keeps the budget and still applies its arrays |
| App.ImportKeepsCurrency | App.tsx:68 | importing never empties the selected currency |
| App.ResetData | App.tsx:75-81 | reset empties the ledger, restores the default registry and clears the limits; currency, theme, device id and onboarding flag stay; a state with a currency stays well-formed |
| App.ResetIdempotent | App.tsx:75-81 | resetting twice is resetting once |
| Registry.AddTag | components/Settings.tsx:27-32 | the upper-cased input is appended exactly when the input is non-empty and not yet listed, and the field is cleared exactly then; otherwise nothing changes; duplicate-freeness and upper case are kept; the onboarding tag step (components/Onboarding.tsx:48-53) runs the same rule |
| Registry.AddTagTwice | components/Settings.tsx:28-31 | adding the same label twice is adding it once |
| Registry.AddTagIgnoresCase | components/Settings.tsx:28-29 | labels that differ only in letter case are the same label |
| Registry.RemoveTag | components/Settings.tsx:34-36 | every entry equal to the label goes and every copy of every other entry stays, in order; an absent label changes nothing; duplicate-freeness is kept; the onboarding tag step (components/Onboarding.tsx:55-57) runs the same rule |
| Registry.RemoveTagTwice | components/Settings.tsx:34-36 | removing twice is removing once |
| Registry.RemoveUndoesAdd | components/Settings.tsx:27-36 | removing a label that was just added restores the registry |
| Registry.ShuffleTags | components/Settings.tsx:38-40 | a shuffle is a permutation: same length, same multiset, still duplicate-free and upper case |
| Settings.EditDaily | components/Settings.tsx:85 | the daily limit becomes the parsed number, negatives included, or 0 when the text does not parse; the monthly limit is untouched |
| Settings.EditMonthly | components/Settings.tsx:94 | the mirror image for the monthly limit |
| Settings.BudgetEditsCommute | components/Settings.tsx:84-94 | the two fields are independent and the last edit of a field wins |
| Settings.ConfirmReset | components/Settings.tsx:158 | the wipe happens only when confirmed; otherwise the state is unchanged |
| Onboarding.Advance | components/Onboarding.tsx:94-236 | every screen except the budget screen moves one step on; the budget screen has no step transition |
| Onboarding.WalkClimbs | components/Onboarding.tsx:17-34 | from step 0 the wizard climbs one step per transition and stops at 6 |
| Onboarding.WalkScreens | components/Onboarding.tsx:66-236 | the wizard shows the splash, three slides, the currency step, the tag step, then the budget screen for every later step |
| Onboarding.Dots | components/Onboarding.tsx:97-118 | a slide shows slides + 3 = 6 dots with only the current slide's dot lit |
| Onboarding.SkipBudget | components/Onboarding.tsx:36-39 | skipping sets both limits to 0 and completes onboarding, nothing else changes |
| Onboarding.SaveBudget | components/Onboarding.tsx:41-46 | saving sets each limit to its parsed value or 0 and completes onboarding |
| Onboarding.SaveEmptyIsSkip | components/Onboarding.tsx:36-46 | saving two unparsable fields is the same as skipping |
| Onboarding.FilterCurrencies | components/Onboarding.tsx:59-63 | the result is an order-preserving subsequence of the table holding exactly the matching entries; an empty query keeps every entry |
| Onboarding.MatchesIff | components/Onboarding.tsx:59-63 | an entry matches exactly when the lower-cased query occurs at some position of its lower-cased code, name or symbol |
| Onboarding.SearchIgnoresCase | components/Onboarding.tsx:59-63 | an upper-cased query finds the same entries |
| EntryForm.OpenForm | components/Input.tsx:15-18 | a fresh form has empty text fields, today's date and the first registered category |
| EntryForm.Submit | components/Input.tsx:20-33 | a submit is blocked exactly when the amount or description is empty, and then changes nothing; otherwise the draft carries the parsed amount and the typed fields, and the form keeps only category and date |
| EntryForm.SubmitAddsOne | components/Input.tsx:20-33 | an accepted submit adds exactly one record carrying the form's values, and resubmitting the cleared form is blocked |
| EntryForm.DailyBuffer | components/Input.tsx:35-58 | the widget shows only when the daily limit is positive; the remainder plus today's spending is the limit; "exceeded" shows exactly when spending passes the limit, by the positive excess |
| EntryForm.AddCanExceed | components/Input.tsx:35-36 | a record dated today that costs more than what is left turns the widget to "exceeded" |
| History.HistoryView | components/History.tsx:15-32 | one group per distinct date of the ledger, newest first; each group holds that date's records in ledger order and their total; no group is empty; no ledger gives no groups |
| History.ExactlyOneGroup | components/History.tsx:15-19 | every record lands in exactly one group |
| History.DayTotalsAddUp | components/History.tsx:32 | the day totals add up to the lifetime total |
| History.DeleteRowRemovesIt | components/History.tsx:51 | after a row's delete, that record is in no group |
| Analytics.TotalWithin | components/Analytics.tsx:14 | with every amount between lo and hi, the lifetime total lies between count·lo and count·hi |
| Analytics.Average | components/Analytics.tsx:82 | the average times the count is the lifetime total, and an empty ledger averages 0 |
| Analytics.AverageWithin | components/Analytics.tsx:82 | the average lies between the smallest and largest amount |
| Analytics.CategoryData | components/Analytics.tsx:17-26 | one slice per category in use, each holding that category's total, names distinct, ordered by value, largest first |
| Analytics.CategoryShares | components/Analytics.tsx:17-26 | the slices add up to the lifetime total |
| Analytics.MonthDay | components/Analytics.tsx:36 | the bar label is the date text after its first five characters, empty for shorter text |
| Analytics.SumOfDay | components/Analytics.tsx:35 | one pass over the ledger gives the day's total |
| Analytics.DailyData | components/Analytics.tsx:29-39 | seven bars, oldest first, for six days ago through today; each carries its label and the day's total |
| Analytics.MonthTotalCons | components/Analytics.tsx:42-44 | a record counts toward the month exactly when its date starts with the month prefix |
| Analytics.AddExpenseMonth | components/Analytics.tsx:42-44 | adding a record changes the month total by its amount exactly when it is dated in that month |
| Analytics.MonthTotal | components/Analytics.tsx:42-44 | records of other months never contribute, so a ledger with none in the month totals 0; with no negative amounts the month total lies between 0 and the lifetime total |
| Analytics.MonthExample | components/Analytics.tsx:42-44 | a January record counts toward January only, a February record toward February only |
| Analytics.MonthLeft | components/Analytics.tsx:45 | what is left plus the month's spending is the monthly limit; it is negative exactly when spending passes the limit |
| Analytics.Tally | components/Analytics.tsx:50-54 | a key's counter counts the records with that key |
| Analytics.TallyFirst | components/Analytics.tsx:52 | a counter's description and amount come from the first record with its key |
| Analytics.Repeats | components/Analytics.tsx:55 | exactly the counters seen more than once survive, most frequent first |
| Analytics.Patterns | components/Analytics.tsx:48-56 | the list holds the counter of every key seen more than once and nothing else, most frequent first |
| Analytics.PatternsCountBound | components/Analytics.tsx:48-56 | the reported counts add up to at most the number of records |
| Analytics.Recurring | components/Analytics.tsx:48-56 | keyed by the (description, amount) pair: one entry per pair seen more than once, carrying the pair and its exact number of occurrences, most frequent first, no pair twice |
| Analytics.RecurringByText | components/Analytics.tsx:48-56 | keyed by the text as written: each entry is the counter of some record's text key and was seen more than once; every text key seen more than once has its counter listed; no entry appears twice. When two pairs share a text key, a repeated pair may appear only through the merged entry of the other pair, whose count is at least its own |
| Analytics.RecurringCountBound | components/Analytics.tsx:48-56 | under either key, the reported counts add up to at most the number of records |
| Analytics.FaithfulTextKey | components/Analytics.tsx:51 | when the text key tells the ledger's pairs apart, the list as written equals the pair-keyed list |
| Analytics.TextKeyCollision | components/Analytics.tsx:51 | ("x-", 1) and ("x", -1) share the text "x--1": the list as written reports ("x-", 1) twice, the pair-keyed list nothing |
| Analytics.Unrepeated | components/Analytics.tsx:55 | a ledger with no repeated pair has nothing recurring |

## Left out

- Persistence: the sticky-state hook, i.e. reading and writing localStorage. Each stored key is one field of `App.AppState`.
- Import: `JSON.parse` and `JSON.stringify`. Import works on an already-parsed document, and a document the parser rejects is `None`.
- Import: truthy values of the wrong type in `budget` or `currency` (say, a number) cannot be represented in the typed state, so they are not modelled.
- Import: an array field of the document is a sequence of well-typed records (or labels). Arrays holding other values, which the source stores as they are, cannot be represented.
- Download-link creation, `alert` and `confirm`. The confirmation answer is a parameter of `Settings.ConfirmReset`.
- uuid generation, `Date.now()` and the clock. Ids, timestamps, today's date, the month prefix, the seven window dates and the date-to-instant conversion are parameters, so time zones (local `setDate` against UTC `toISOString`) are not modelled.
- `Math.random`: `Registry.ShuffleTags` takes the random positions as a parameter. Any permutation is reachable this way, but the bias of a random comparator is not modelled.
- IEEE floating point: amounts are exact reals. NaN amounts, rounding in sums and the number-to-text conversion are abstracted; the conversion is the parameter `fmt` of the recurring detector.
- `parseFloat`: its result is an `Option<real>`, with `None` for NaN. The entry form's parse is a `string -> real` parameter, because a number input yields numeric text or "".
- `Text.Upper` and `Text.Lower` map ASCII letters only. JavaScript's full Unicode case mapping is not modelled.
- `History.HistoryView` ranks dates by the `instant` parameter. Unparsable dates (NaN instants) are not modelled.
- `Ledger.KeysOf` lists keys in first-occurrence order, which is the order of `Object.keys`/`Object.entries` only for keys that are not integer-like. A category named, say, "5" would be listed earlier by the source. This only changes ties in the category sort.
- `Ledger.KeysOf`: a key that names a member of `Object.prototype` ("constructor", "__proto__", "toString"), which only an imported document can hold, is an ordinary key in the model. In the source the `{}` accumulators misbehave on such keys.
- `History.HistoryView`: a record dated "constructor", "toString" or "__proto__" finds an inherited value in the grouping object, which has no `push`, so components/History.tsx:15-16 throws and the screen does not render. The model groups such records like any other date.
- `Analytics.CategoryData`: at components/Analytics.tsx:19 a "__proto__" category's slice is lost, and a "toString" category's value becomes text. The model gives both the category's total.
- `App.CurrentTheme` requires a non-empty theme table. The real table in constants.ts is a fixed, non-empty list; the table's contents and the currency table are not part of this model.
- `EntryForm.OpenForm`: with an empty registry the source's initial category is `undefined`; the model uses "".
- The onboarding splash timer becomes the single transition from step 0. The timer's cancellation is not modelled.
- The month progress-bar width, which divides by the monthly limit.
- `formatCurrency`, all JSX and charts, and components/Layout.tsx (navigation and styling).

## Findings

| source | as written | input that shows it | evidently intended | confidence | as-written member | corrected member |
|---|---|---|---|---|---|---|
| components/Analytics.tsx:51 | the recurring detector groups records by the text `${description}-${amount}` | two records ("x-", 1) and ("x", -1) both get the key "x--1" and are reported as one pattern ("x-", 1) seen twice; with positive amounts, ("x", 0.0000001) and ("x-1e", 7) both give "x-1e-7" | group by the (description, amount) pair, as the comment "Same description & amount" says; that input has nothing recurring | medium, not executed | Analytics.RecurringByText (collision shown by Analytics.TextKeyCollision) | Analytics.Recurring (exact pair counts proved in its contract; Analytics.FaithfulTextKey proves the two agree whenever the text tells pairs apart) |
