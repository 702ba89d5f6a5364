# Revenue dashboard core, modelled in Dafny

This project models the logic of a small financial dashboard:

- **The revenue store** (`RevenueSlice`, in `revenue_slice.dfy`). It holds a state record `{status, error, data}`, where `data` maps the three range keys `today`, `7d` and `30d` to sequences of `{label, value}` points. The three transitions of the `fetchRevenue` lifecycle are `pending`, `fulfilled` and `rejected`. The selector returns `data[key] ?? []`. The reducer is a function `Reduce`. `Run` folds it over any sequence of actions, so one sequence can hold several loads and can interleave them. The class `RevenueStore` has one method per case reducer. Each method assigns the fields the source assigns, and its contract ties the new state to `Reduce` of the old one.
- **The revenue card** (`RevenueCard`, in `revenue_card.dfy`). It reconciles a range's points onto the fixed twelve-month axis `Jan..Dec`. First it builds a lookup from labels to values. As in a JavaScript `Map` built from entries, a later label overwrites an earlier one. Then it takes one value per month, with 0 where a month is missing. The module also covers the "vs Last …" caption, the default range `7d`, and the card's events. Mounting starts the card on `7d` and dispatches the load. Choosing a range only changes which key the selector reads.
- **The transactions table** (`Transactions`, in `transactions.dfy`). It covers the twenty mock rows, the page count `max(1, ceil(n / 6))` and page slicing with JavaScript `slice` semantics. It also covers the selection record with its "all visible checked" predicate, the "toggle all visible" loop and the per-row toggle. Finally it covers the pagination bar: when it renders, which buttons are enabled, and where each button leads.

`wrappers.dfy` holds the `Option` type.

The HTTP request inside `fetchRevenue` is not modelled. The store only receives its outcome: a `Fulfilled(payload)` or a `Rejected(message)` action.

### Where the store's intended behaviour and its code disagree (the model follows the code)

- The store is meant to keep the invariant "`error` is present exactly when `status` is failed". The `fulfilled` case reducer never clears `error` (src/store/revenueSlice.ts:33-36). So the invariant holds only while loads do not overlap (`SequentialLoadsKeepErrorIffFailed`). Two overlapping loads can break it: the first fails after the second has started, then the second succeeds. The store then ends `succeeded` while still holding the first load's error (`OverlappingLoadsLeaveStaleError`).
- `succeeded` and `failed` are meant as transitions out of `loading`. The reducers have no such guard: each case applies from any status. The model applies them from any status too.

## Model

| member | source | states |
|---|---|---|
| `RevenueSlice.InitialState` | src/store/revenueSlice.ts:13-16 | the initial state has status idle, no error, all three range keys, and every range maps to the empty sequence |
| `RevenueSlice.RevenueStore.constructor` | src/store/revenueSlice.ts:13-16 | a new store holds exactly the initial state |
| `RevenueSlice.RevenueStore.OnPending` | src/store/revenueSlice.ts:29-32 | pending sets status to loading and clears the error; data is unchanged |
| `RevenueSlice.RevenueStore.OnFulfilled` | src/store/revenueSlice.ts:33-36 | fulfilled sets status to succeeded and replaces data with the payload; the error is not touched |
| `RevenueSlice.RevenueStore.OnRejected` | src/store/revenueSlice.ts:37-40 | rejected sets status to failed and stores the message as the error; data is kept as it was |
| `RevenueSlice.RevenueStore.Dispatch` | src/store/revenueSlice.ts:28-41 | dispatching an action changes the store exactly as the reducer prescribes |
| `RevenueSlice.Reduce` | src/store/revenueSlice.ts:28-41 | the reducer never returns to idle; it ends failed exactly on a rejected action; loading always comes with no error; only fulfilled replaces data, and fulfilled never touches the error (the per-sequence consequences are `RunStatus`, `LastFulfilledWins`, `ErrorFollowsLastPendingOrRejected` and `Dispatch`) |
| `RevenueSlice.Run` | src/store/revenueSlice.ts:28-41 | dispatching any non-empty sequence leaves the store out of idle; a store still idle afterwards saw no action and is unchanged |
| `RevenueSlice.SelectRevenueForRange` | src/store/revenueSlice.ts:46-49 | on a state holding all three ranges the selector returns exactly that range's points; a missing key reads as the empty sequence |
| `RevenueSlice.Settle` | src/store/revenueSlice.ts:18-22 | a settled load dispatches fulfilled carrying exactly its payload, or rejected carrying exactly its error message, and never another pending |
| `RevenueSlice.RunAppend` | src/store/revenueSlice.ts:28-41 | dispatching two action sequences one after the other is the same as dispatching their concatenation |
| `RevenueSlice.RunStatus` | src/store/revenueSlice.ts:29-40 | after any action sequence, the status is decided by the last action alone (loading, succeeded or failed) |
| `RevenueSlice.LastFulfilledWins` | src/store/revenueSlice.ts:33-36 | after any action sequence, data is the payload of the last fulfilled action, whatever came before or after it |
| `RevenueSlice.DataKeptWithoutFulfilled` | src/store/revenueSlice.ts:29-40 | a sequence with no fulfilled action leaves data as it was: pending and rejected keep stale data |
| `RevenueSlice.ErrorFollowsLastPendingOrRejected` | src/store/revenueSlice.ts:29-40 | the error is decided by the last pending or rejected action: none after pending, the message after rejected |
| `RevenueSlice.ErrorKeptByFulfilled` | src/store/revenueSlice.ts:33-36 | fulfilled actions alone never change the error |
| `RevenueSlice.RunKeepsAllRanges` | src/store/revenueSlice.ts:7-40 | if every fulfilled payload has all three range keys, data keeps all three keys through any action sequence |
| `RevenueSlice.PendingThenFulfilled` | src/store/revenueSlice.ts:29-36 | from any state, a successful load ends in succeeded with no error and data equal to the payload |
| `RevenueSlice.PendingThenRejected` | src/store/revenueSlice.ts:29-40 | from any state, a failed load ends in failed with the message, and data is what it was before the load |
| `RevenueSlice.SequentialLoadsKeepErrorIffFailed` | src/store/revenueSlice.ts:29-40 | with non-overlapping loads, "error present iff failed" is preserved, and the final status is that of the last outcome |
| `RevenueSlice.SequentialLoadsLastOutcome` | src/store/revenueSlice.ts:18-40 | after non-overlapping loads, a last success leaves succeeded, no error and exactly its payload; a last failure leaves failed, exactly its message, and the data the earlier loads left |
| `RevenueSlice.SequentialLoadsKeepLastPayload` | src/store/revenueSlice.ts:18-40 | after non-overlapping loads, data is the payload of the last load that succeeded, however many failed after it |
| `RevenueSlice.SequentialFailuresKeepData` | src/store/revenueSlice.ts:29-40 | non-overlapping loads that all fail leave data as it was |
| `RevenueSlice.OverlappingLoadsLeaveStaleError` | src/store/revenueSlice.ts:33-36 | overlapping loads (pending, pending, rejected, fulfilled) end succeeded but still carry the error, breaking "error iff failed" |
| `RevenueSlice.SelectOnInitialState` | src/store/revenueSlice.ts:46-49 | on the initial state the selector returns the empty sequence for every range |
| `RevenueSlice.SelectAfterSuccessfulLoad` | src/store/revenueSlice.ts:46-49 | after a successful load the selector returns exactly the payload's sequence for the key, or empty if the payload lacks the key |
| `RevenueSlice.SelectAfterFailedLoad` | src/store/revenueSlice.ts:37-49 | after a failed load the selector returns what it returned before the load |
| `RevenueCard.ValueByLabel` | src/components/RevenueCard/RevenueCard.tsx:114 | every input label gets an entry in the lookup, and the last point's label maps to the last point's value (the full last-write-wins law is `ValueByLabelLastWins`) |
| `RevenueCard.MonthValues` | src/components/RevenueCard/RevenueCard.tsx:115 | whatever the input length, the chart gets exactly twelve values, one per entry of the month axis `Months` (what each value is: `MonthValuesSpec`) |
| `RevenueCard.MiniBarChartData` | src/components/RevenueCard/RevenueCard.tsx:114-116 | the label axis is exactly Jan..Dec in calendar order, and the values are the month-by-month reconciliation `MonthValues` of the points, one per label |
| `RevenueCard.ValueByLabelDomain` | src/components/RevenueCard/RevenueCard.tsx:114 | the label lookup has an entry for a label iff some input point carries that label |
| `RevenueCard.ValueByLabelLastWins` | src/components/RevenueCard/RevenueCard.tsx:114 | the lookup holds the value of the last point with the label (last write wins) |
| `RevenueCard.ValueByLabelWitness` | src/components/RevenueCard/RevenueCard.tsx:114 | every value in the lookup is the value of some input point with that label |
| `RevenueCard.MonthValuesSpec` | src/components/RevenueCard/RevenueCard.tsx:114-115 | each month's value is the value of the last point labelled with that month, or 0 when no point has that label |
| `RevenueCard.KnownMonthsOnly` | src/components/RevenueCard/RevenueCard.tsx:115 | specification helper for the law that unknown labels are dropped, which happens implicitly when `Array.from(MONTHS, …)` reads only month labels: a point is kept exactly when it occurs in the input and its label is one of the twelve `MONTHS` (27-30) |
| `RevenueCard.KnownMonthsOnlyAppend` | src/components/RevenueCard/RevenueCard.tsx:27-30 | the filter keeps input order: filtering a concatenation is concatenating the filtered parts |
| `RevenueCard.ValueByLabelOnMonths` | src/components/RevenueCard/RevenueCard.tsx:114 | on every month label, the lookup is the same with or without the points whose labels are not months |
| `RevenueCard.UnknownLabelsIgnored` | src/components/RevenueCard/RevenueCard.tsx:114-116 | points whose label is not one of the twelve months have no effect on the chart |
| `RevenueCard.UnknownPointIgnored` | src/components/RevenueCard/RevenueCard.tsx:114-116 | inserting a point whose label is not a month anywhere in the input leaves the chart unchanged |
| `RevenueCard.MonthValuesDependOnlyOnPoints` | src/components/RevenueCard/RevenueCard.tsx:114-115 | when points sharing a label share a value, the chart depends only on which points occur, not on their order or multiplicity |
| `RevenueCard.ReorderingDistinctLabels` | src/components/RevenueCard/RevenueCard.tsx:114-115 | if the input labels are distinct, any reordering of the input gives the same chart |
| `RevenueCard.EmptyRangeGivesZeros` | src/components/RevenueCard/RevenueCard.tsx:115 | an empty range charts as twelve zeros |
| `RevenueCard.DuplicateLabelKeepsLater` | src/components/RevenueCard/RevenueCard.tsx:114 | given two "Jan" points (100 then 200), the chart shows 200 for January |
| `RevenueCard.SevenDayTestData` | src/tests/RevenueCard.test.tsx:12-15 | the test's 7-day data `[Jan: 100, Feb: 200]` charts as 100, 200 and ten zeros |
| `RevenueCard.VsLastCaption` | src/components/RevenueCard/RevenueCard.tsx:218 | every caption starts with "vs Last " (which range it names: `CaptionIdentifiesRange`) |
| `RevenueCard.CaptionIdentifiesRange` | src/components/RevenueCard/RevenueCard.tsx:218 | the caption is "vs Last day", "vs Last 7 days" or "vs Last 30 days"; distinct ranges get distinct captions |
| `RevenueCard.CardStep` | src/components/RevenueCard/RevenueCard.tsx:187-193 | mounting dispatches one load and starts the card on the default range `7d`; choosing a range dispatches nothing and makes that range active |
| `RevenueCard.CardRun` | src/components/RevenueCard/RevenueCard.tsx:187-193 | handling events never loses a dispatched load and dispatches at most one load per event |
| `RevenueCard.ShownChart` | src/components/RevenueCard/RevenueCard.tsx:189 | the chart shown is the Jan..Dec axis with the reconciliation of the active range's points, or twelve zeros when the store lacks that range |
| `RevenueCard.ChoosingRangesOnlyChangesActive` | src/components/RevenueCard/RevenueCard.tsx:187-193 | choosing ranges never dispatches a load; the active range is the last one chosen |
| `RevenueCard.OneLoadPerMount` | src/components/RevenueCard/RevenueCard.tsx:187-193 | mounting once and then choosing ranges dispatches exactly one load; the active range is 7d until one is chosen |
| `RevenueCard.CardRunAppend` | src/components/RevenueCard/RevenueCard.tsx:187-193 | handling two event sequences one after the other is handling their concatenation |
| `RevenueCard.CardTestScenario` | src/tests/RevenueCard.test.tsx:9-42 | after the test payload loads, the default 7d range charts as 100, 200 and ten zeros; after choosing today the caption is "vs Last day" and one load was dispatched |
| `Transactions.DecimalString` | src/app/transactions/page.tsx:21 | the id of a row is a non-empty string of decimal digits without a leading zero, a single digit exactly for numbers below ten, and read back as a decimal number (`DigitsValue`) it is the row number |
| `Transactions.DecimalStringInjective` | src/app/transactions/page.tsx:21 | different row numbers give different ids |
| `Transactions.Pages` | src/app/transactions/page.tsx:145-148 | the page count is at least 1; it is 1 for no rows, and otherwise the ceiling of n / 6 (the last page starts before row n and ends at or after it) |
| `Transactions.RelativeIndex` | src/app/transactions/page.tsx:149 | a non-negative slice index is clamped to the length |
| `Transactions.JsSlice` | src/app/transactions/page.tsx:149 | a slice is never longer than its input and, for 0 <= start <= end, holds the elements from start to end clamped to the length |
| `Transactions.PageData` | src/app/transactions/page.tsx:149 | for any page number, even one out of range, the slice holds at most six rows and never more than the data (the exact rows: `PageDataSpec`) |
| `Transactions.PageDataSpec` | src/app/transactions/page.tsx:149 | for 1 <= page <= pages, the page holds rows (page-1)*6 up to min(page*6, n): at most six rows, exactly six on every page but the last, non-empty when there are rows, never more rows than the data |
| `Transactions.PageBeyondLastIsEmpty` | src/app/transactions/page.tsx:149 | a page past the last one is empty |
| `Transactions.PagesUpToIsPrefix` | src/app/transactions/page.tsx:148-149 | pages 1..k laid end to end are the first min(6k, n) rows |
| `Transactions.PagesPartitionRows` | src/app/transactions/page.tsx:148-149 | pages 1..pages laid end to end give back the rows exactly |
| `Transactions.RowChecked` | src/app/transactions/page.tsx:261 | a row with no entry in the selection record reads as unchecked |
| `Transactions.AllVisibleChecked` | src/app/transactions/page.tsx:150 | on an empty page the header checkbox reads as checked, as `every` on an empty array does |
| `Transactions.ToggleAllVisible` | src/app/transactions/page.tsx:151-155 | every visible id is set to the new value, every other entry is unchanged, no other key appears, and on a non-empty page "all visible checked" then equals the new value |
| `Transactions.ToggleRow` | src/app/transactions/page.tsx:261-263 | the row's checkbox reads the new value, and every other entry is unchanged |
| `Transactions.UncheckingVisibleRowClearsHeader` | src/app/transactions/page.tsx:150 | unchecking any visible row makes "all visible checked" false |
| `Transactions.CheckingLastVisibleRowSetsHeader` | src/app/transactions/page.tsx:150 | checking the only unchecked visible row makes "all visible checked" true |
| `Transactions.PaginationShape` | src/app/transactions/page.tsx:89-121 | the bar renders iff there are at least two pages; « and ‹ are enabled iff page > 1; › and » are enabled iff page < pages; the number buttons are 1..pages in order |
| `Transactions.Pagination` | src/app/transactions/page.tsx:84-91 | the bar renders exactly when there are at least two pages (its buttons: `PaginationShape`) |
| `Transactions.Click` | src/app/transactions/page.tsx:89-135 | « goes to page 1 and ‹ to page - 1 when page > 1; › goes to page + 1 and » to the last page when page < pages; a number button in 1..pages goes to its page; every other click (one page only, a disabled arrow, a number outside 1..pages) leaves the page unchanged |
| `Transactions.Browse` | src/app/transactions/page.tsx:89-138 | on a single-page table no sequence of clicks changes the page |
| `Transactions.ClickStaysInRange` | src/app/transactions/page.tsx:89-135 | from a page in 1..pages, clicking any control leaves the page in 1..pages |
| `Transactions.BrowsingStaysInRange` | src/app/transactions/page.tsx:89-135 | any sequence of clicks keeps the page in 1..pages |
| `Transactions.BrowsingKeepsRowsVisible` | src/app/transactions/page.tsx:144-149 | starting on page 1, after any clicks the visible page of a non-empty table holds between one and six rows |
| `Transactions.MockDataFacts` | src/app/transactions/page.tsx:20-28 | the mock data `MockData` has 20 rows with ids "1".."20" and status alternating Processed/Failed; that makes 4 pages, the last holding 2 rows |
| `Transactions.MockIdsDistinct` | src/app/transactions/page.tsx:20-28 | no two mock rows share an id |
| `Transactions.MockIdsAreRowNumbers` | src/app/transactions/page.tsx:21 | read as decimal numbers, the mock ids are exactly the row numbers 1..20 |

## Left out

- The `fetch("/api/revenue")` request, the `res.ok` check with its "Failed to load revenue" error, and JSON parsing (src/store/revenueSlice.ts:18-22). These are I/O; the model receives only the outcome (a payload or a message). The mock endpoint `src/app/api/revenue/route.ts` is left out for the same reason.
- The rejected action's `error.message` is typed as optional. It is modelled as always present, because the thunk always throws an `Error` that carries a message.
- Redux Toolkit wiring: `configureStore`, the hooks, and `createSelector` memoisation. Memoisation only skips recomputation; the selector is modelled as the pure function it memoises.
- Truly concurrent requests are not modelled. Overlapping loads are modelled only as interleaved action sequences, which is the order in which the reducer sees them.
- Revenue values are JavaScript numbers; they are modelled as integers. Reconciliation only copies values, so no arithmetic depends on this. `null` or missing values in a malformed payload are not modelled.
- The point field `label` is named `name` in the model, because `label` is a Dafny keyword.
- Display formatting and chart rendering are left out: `formatShort`, `formatNaira`, `formatDatePretty` (floating point, `Intl` and `Date`), the Chart.js options, the border plugin, the resize handler, the range selector's option texts, and the loading and error indicators. These are presentation with no state to reason about.
- The React state setters are represented by the card's event fold and the table's click fold. Rendering and re-rendering are not modelled.
- `JsSlice` models negative `slice` indices, but the lemmas cover only pages 1 and above. The table's page starts at 1 and the enabled controls keep it there.
- The mock rows' amounts, types, dates and times are modelled, but no property is stated about them.
- `Topbar`, `Sidebar`, `AccountDetails` (clipboard and timer) and the layout files contain no stateable logic and are not part of this model.
