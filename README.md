# Adreena Store point of sale: a Dafny model of its core

The application is a small point-of-sale web app for two shops, Adreena Store
and Alzena Point. A cashier records sales transactions. Each transaction has
line items, each with a name, selling price, quantity and cost price. The app
stores the list in the browser and shows a monthly dashboard. This project
models the logic behind that and proves properties of it:

- **Totals and identifiers** (`Utils`, with `Decimal` for the digit strings).
  - Totals: the sales total, the cost total and the profit of an item list.
  - Identifiers: `AS-yymmxxx` ids built from the date and the number of
    transactions already stored in that month. The app never parses an id;
    the model adds its own parser, `ParseTransactionId`, as the partner the
    round-trip and injectivity lemmas are stated against.
- **The transaction store** (`TransactionContext`).
  - The stored list is a class with a sequence field.
  - Adding computes the id and the totals. Updating merges a partial record
    and recomputes the totals when items come with it. Deleting filters by id.
  - Queries: lookup by id, the month filter and the per-month count.
- **Store profiles** (`StoreContext`).
  - The two built-in profiles and the active-profile lookup with its fall-back
    to the first profile.
  - Merging a partial profile into the active one, and guarded switching.
- **The transaction form** (`TransactionForm`, `TransactionItemForm`).
  - Adding, removing and editing item lines, and the totals the form shows.
  - The submit handler's validation loop, and its choice between updating the
    edited transaction and adding a new one.
- **The listing pages** (`Listing`, `Dashboard`).
  - The month filter followed by a newest-first stable sort.
  - The dashboard summary: sales, profit, count, and the first and last day
    of the month as `new Date` computes them.
  - The five most recent transactions and the "see all" button.

Data is modelled as values:
- Money and quantities are unbounded integers.
- A date is its calendar year, 0-based month, day and millisecond timestamp.
- A `Partial<T>` argument is a record of `Field`s. Each field is either
  `Absent` or `Present(value)`, because an object spread copies exactly the
  keys that are present.
- The id of a new item line comes from `Date.now()`. Here it is a parameter
  (`freshId`).

## Model

| member | source | states |
|---|---|---|
| Utils.CalculateTransactionTotals | src/lib/utils.ts:40-58 | profit is sales minus cost; the sums themselves are fixed by TotalsOfNoItems, TotalsOfOneItem and TotalsOfConcat below |
| Utils.TotalsOfNoItems | src/lib/utils.ts:45-57 | an empty item list has all three totals zero (the reduce seed) |
| Utils.TotalsOfOneItem | src/lib/utils.ts:45-57 | one item contributes price × quantity to sales, costPrice × quantity to cost, and their difference to profit |
| Utils.TotalsOfConcat | src/lib/utils.ts:45-57 | the totals of a concatenation are the field-wise sums of the parts' totals; with the two rows above this fixes the totals of every list |
| Utils.TotalsNonNegative | src/lib/utils.ts:45-57 | with non-negative quantities and costs and no item sold below cost, cost ≥ 0, sales ≥ cost and profit ≥ 0 |
| Utils.ProfitCanBeNegative | src/lib/utils.ts:55 | profit is not clamped: an item sold below cost gives a negative profit |
| Utils.TotalsExample | src/lib/utils.ts:40-58 | a concrete two-item list totals 25000 / 15000 / 10000 |
| Utils.GenerateTransactionId | src/lib/utils.ts:21-27 | the `AS-` prefix followed by the year, month and sequence fields; its contract is carried by YearFieldValue, MonthFieldValue and SequenceFieldValue for the fields, and by IdRoundTrip, IdInjective and IdLength for the whole id |
| Decimal.NatToString | src/lib/utils.ts:22-24 | `toString` of a natural number is a non-empty digit string with no leading zero except for 0 itself |
| Decimal.IntToString | src/lib/utils.ts:22-24 | `toString` of an integer: a '-' sign for negatives, then NatToString of the magnitude; the year field only meets years ≥ 10, for which YearFieldValue states the result |
| Decimal.NatToStringValue | src/lib/utils.ts:22-24 | reading back the digits of `toString(n)` gives n |
| Decimal.NatToStringLength | src/lib/utils.ts:24 | `toString(n)` has at most k digits exactly when n < 10^k |
| Decimal.PadStart | src/lib/utils.ts:23-24 | `padStart(width, fill)`: its length and digit value are stated by PadStartValue, and its use in the month and sequence fields by MonthFieldValue and SequenceFieldValue |
| Decimal.PadStartValue | src/lib/utils.ts:23-24 | `padStart(width, "0")` keeps the digits' value and yields max(length, width) characters, never truncating |
| Decimal.SliceLast | src/lib/utils.ts:22 | `slice(-k)` for k ≥ 1 (the source passes 2); its use in the year field is stated by NatToStringLastTwo and YearFieldValue |
| Utils.YearFieldValue | src/lib/utils.ts:22 | for years ≥ 10 the year field is two digits whose value is year mod 100 |
| Utils.YearFieldCentury | src/lib/utils.ts:22 | years with the same last two digits give the same year field |
| Utils.MonthFieldValue | src/lib/utils.ts:23 | the month field is two digits whose value is the 1-based month |
| Utils.SequenceFieldValue | src/lib/utils.ts:24 | the sequence field's value is count + 1; it has 3 digits up to 999 and is the unpadded number beyond |
| Utils.IdRoundTrip | src/lib/utils.ts:21-27 | parsing a generated id gives back (year mod 100, month, count + 1) |
| Utils.IdInjective | src/lib/utils.ts:21-27 | two generated ids are equal exactly when year mod 100, month and count all agree |
| Utils.IdLength | src/lib/utils.ts:21-27 | while count + 1 ≤ 999 an id has 10 characters |
| Utils.IdExample | src/lib/utils.ts:21-27 | March 2024 with count 0 gives "AS-2403001" |
| Utils.IdWidensPast999 | src/lib/utils.ts:24 | count 999 gives "AS-24031000": the sequence field widens instead of wrapping |
| TransactionContext.TransactionsByMonth | src/contexts/TransactionContext.tsx:109-114 | the month filter never yields more transactions than are stored |
| TransactionContext.TransactionsByMonthMembers | src/contexts/TransactionContext.tsx:109-114 | the filter keeps exactly the stored transactions whose year and month match |
| TransactionContext.TransactionsByMonthOfConcat | src/contexts/TransactionContext.tsx:109-114 | the filter distributes over concatenation, so it keeps the stored order |
| TransactionContext.NextTransactionCount | src/contexts/TransactionContext.tsx:49-59 | the count never exceeds the stored transactions; it is the length of the month filter, whose members TransactionsByMonthMembers states, and CountGrowsWithinMonth and CountOfOne relate it to additions |
| TransactionContext.FindTransaction | src/contexts/TransactionContext.tsx:105-107 | `getTransaction` returns nothing exactly when no stored id matches; otherwise it returns the first stored transaction with that id |
| TransactionContext.FindAfterAppend | src/contexts/TransactionContext.tsx:105-107 | after an append, an earlier holder of the id still wins; the appended transaction is found only when no earlier one has the id |
| TransactionContext.RemoveTransactions | src/contexts/TransactionContext.tsx:100-103 | deletion never lengthens the list |
| TransactionContext.RemoveTransactionsMembers | src/contexts/TransactionContext.tsx:100-103 | deletion keeps exactly the transactions with another id, so every copy of the id goes |
| TransactionContext.RemoveMissingIsNoop | src/contexts/TransactionContext.tsx:100-103 | deleting an id that nothing has changes nothing |
| TransactionContext.RemoveIdempotent | src/contexts/TransactionContext.tsx:100-103 | deleting twice is the same as deleting once |
| TransactionContext.RemoveOfConcat | src/contexts/TransactionContext.tsx:100-103 | deletion distributes over concatenation |
| TransactionContext.ApplyPatch | src/contexts/TransactionContext.tsx:83-91 | every key the patch carries replaces the old value (id, customer name, date, note, and the three totals when no items come); a patch with items sets them and recomputes all three totals from them, overriding any totals it carries; absent keys keep their old values |
| TransactionContext.UpdateTransactions | src/contexts/TransactionContext.tsx:78-98 | the list keeps its length; every transaction with the id is patched and every other one is untouched |
| TransactionContext.UpdateMissingIsNoop | src/contexts/TransactionContext.tsx:78-98 | updating an id that nothing has changes nothing |
| TransactionContext.PatchedTotalsHaveNoResidue | src/contexts/TransactionContext.tsx:86-91 | when items come with a patch, the resulting totals depend only on those items, not on the old transaction |
| TransactionContext.UpdateKeepsTotalsConsistent | src/contexts/TransactionContext.tsx:78-98 | when every stored transaction's totals match its items, an update with items, or one without any totals, keeps that true |
| TransactionContext.TotalsOnlyPatchBreaksConsistency | src/contexts/TransactionContext.tsx:83-91 | a patch that carries totals but no items overwrites the totals unchecked, so they stop matching the items |
| TransactionContext.NewTransaction | src/contexts/TransactionContext.tsx:61-70 | a new transaction copies the draft's fields, gets totals that match its items, and gets the id generated from its date and that month's count |
| TransactionContext.TransactionStore.constructor | src/contexts/TransactionContext.tsx:22 | the store starts empty |
| TransactionContext.TransactionStore.AddTransaction | src/contexts/TransactionContext.tsx:61-76 | appends the new transaction and returns its id |
| TransactionContext.TransactionStore.UpdateTransaction | src/contexts/TransactionContext.tsx:78-98 | replaces the list by its updated version |
| TransactionContext.TransactionStore.DeleteTransaction | src/contexts/TransactionContext.tsx:100-103 | replaces the list by its filtered version |
| TransactionContext.AddKeepsTotalsConsistent | src/contexts/TransactionContext.tsx:61-76 | adding keeps every stored transaction's totals equal to the totals of its items |
| TransactionContext.AddKeepsWellNumbered | src/contexts/TransactionContext.tsx:49-76 | adding keeps every id equal to the one generated from the count of same-month transactions stored before it |
| TransactionContext.CountGrowsWithinMonth | src/contexts/TransactionContext.tsx:49-59 | a later prefix of the list counts every earlier transaction of the month, so its count is larger |
| TransactionContext.NumberedPairDistinct | src/contexts/TransactionContext.tsx:49-76 | two numbered transactions of one century, the later one counting the earlier, have different ids |
| TransactionContext.WellNumberedIdsDistinct | src/contexts/TransactionContext.tsx:49-76 | a list built by additions alone, within one century, has pairwise distinct ids |
| TransactionContext.CountOfOne | src/contexts/TransactionContext.tsx:49-59 | a single transaction of the month counts as one |
| TransactionContext.FirstTwoOfMonth | src/contexts/TransactionContext.tsx:49-103 | the first two sales of a month get sequence numbers 1 and 2, which differ, and deleting the first leaves the second |
| TransactionContext.SharedIdPair | src/contexts/TransactionContext.tsx:78-107 | with two stored transactions sharing an id, lookup finds the older one while update patches both and delete removes both |
| TransactionContext.DeleteThenAddReusesId | src/contexts/TransactionContext.tsx:49-107 | deleting the first of two same-month transactions and then adding one more gives the new transaction the surviving one's id; lookup then finds the older copy, and update and delete act on both |
| StoreContext.DefaultStoresWellFormed | src/contexts/StoreContext.tsx:14-39 | the two built-in profiles have different ids, and the initial active id selects the first of them |
| StoreContext.FindStore | src/contexts/StoreContext.tsx:43 | the lookup returns nothing exactly when no profile has the id; otherwise it returns the first stored profile with that id, as `find` does |
| StoreContext.ActiveProfile | src/contexts/StoreContext.tsx:43 | `storeProfile` is missing exactly when there are no profiles; it is the first profile with the active id if one exists, and the first profile otherwise |
| StoreContext.MergeProfile | src/contexts/StoreContext.tsx:63 | the `{ ...store, ...profile }` merge; its contract is carried by MergeProfileFields on the next row |
| StoreContext.MergeProfileFields | src/contexts/StoreContext.tsx:63 | a merged profile takes every key the patch carries and keeps every other field |
| StoreContext.MergeIntoActive | src/contexts/StoreContext.tsx:61-64 | only the profile with the active id is merged; the others are untouched and the list keeps its length |
| StoreContext.UpdateThenActiveProfile | src/contexts/StoreContext.tsx:43-70 | after an update that keeps the id, the active profile is the old active profile with the patch merged in |
| StoreContext.UpdateWithDanglingActiveId | src/contexts/StoreContext.tsx:43-70 | when the active id names no profile, an update changes nothing, even though the first profile is on show |
| StoreContext.StoreSession.constructor | src/contexts/StoreContext.tsx:38-39 | a session starts with the built-in profiles and "adreena-store" active |
| StoreContext.StoreSession.UpdateStoreProfile | src/contexts/StoreContext.tsx:61-70 | merges the patch into the active profile and keeps the active id |
| StoreContext.StoreSession.SwitchStore | src/contexts/StoreContext.tsx:72-77 | makes the id active exactly when some profile has it; the profiles never change |
| TransactionItemForm.AddItem | src/components/transactions/TransactionItemForm.tsx:18-28 | appends one blank line (empty name, price 0, quantity 1, cost 0) under the fresh id and keeps the lines before it |
| TransactionItemForm.RemoveItem | src/components/transactions/TransactionItemForm.tsx:30-32 | removal never lengthens the list; with RemoveItemOfConcat and RemoveItemOfOne below it is fixed on every list as the order-keeping filter |
| TransactionItemForm.RemoveItemMembers | src/components/transactions/TransactionItemForm.tsx:30-32 | a line is in the result exactly when it is in the list and has another id (membership, both directions) |
| TransactionItemForm.RemoveItemOfConcat | src/components/transactions/TransactionItemForm.tsx:30-32 | removal distributes over concatenation, so the remaining lines keep their order and their number |
| TransactionItemForm.RemoveItemOfOne | src/components/transactions/TransactionItemForm.tsx:30-32 | a single line survives exactly when its id differs from the removed one |
| TransactionItemForm.RemoveMissingItem | src/components/transactions/TransactionItemForm.tsx:30-32 | removing an id that no line has changes nothing |
| TransactionItemForm.RemoveAfterAdd | src/components/transactions/TransactionItemForm.tsx:18-32 | removing a just-added line whose id no other line has gives the list back |
| TransactionItemForm.AddItemKeepsTotals | src/components/transactions/TransactionItemForm.tsx:18-28 | a blank line leaves the transaction totals unchanged |
| TransactionItemForm.UpdateItem | src/components/transactions/TransactionItemForm.tsx:34-41 | the list keeps its length; lines with the id get the edit and the others are untouched |
| TransactionItemForm.EditItem | src/components/transactions/TransactionItemForm.tsx:34-41 | the per-line `{ ...item, [field]: value }` spread; UpdateItemSetsOneField states that it sets exactly the chosen field |
| TransactionItemForm.UpdateItemSetsOneField | src/components/transactions/TransactionItemForm.tsx:34-41 | an edit sets exactly the chosen field of matching lines and keeps their id and every other field |
| TransactionItemForm.RemoveAfterUpdate | src/components/transactions/TransactionItemForm.tsx:30-41 | editing a line and then removing it is the same as removing it |
| TransactionItemForm.CalculateSubtotal | src/components/transactions/TransactionItemForm.tsx:43-45 | price × quantity of one line; DisplayedTotalsMatchStore ties its sum to the stored sales total |
| TransactionItemForm.DisplayedTotal | src/components/transactions/TransactionItemForm.tsx:153 | the "Total" line; DisplayedTotalsMatchStore states it equals the stored sales total |
| TransactionItemForm.DisplayedCost | src/components/transactions/TransactionItemForm.tsx:159 | the "Total Modal" line; DisplayedTotalsMatchStore states it equals the stored cost total |
| TransactionItemForm.DisplayedProfit | src/components/transactions/TransactionItemForm.tsx:165-168 | the "Keuntungan" line; DisplayedTotalsMatchStore states it equals the stored profit |
| TransactionItemForm.DisplayedTotalsMatchStore | src/components/transactions/TransactionItemForm.tsx:43-45 | the form's Total, Total Modal and Keuntungan equal the totals the store records for the same items |
| TransactionForm.Trim | src/components/transactions/TransactionForm.tsx:77 | `String.prototype.trim`; TrimEmptyIffBlank states when it yields the empty string |
| TransactionForm.TrimEmptyIffBlank | src/components/transactions/TransactionForm.tsx:77 | `name.trim()` is empty exactly when the name is all white space |
| TransactionForm.ItemError | src/components/transactions/TransactionForm.tsx:76-89 | one item's first failing check, never the empty-list error; ItemErrorIffUnacceptable states when it reports nothing |
| TransactionForm.FirstItemError | src/components/transactions/TransactionForm.tsx:76-89 | the loop's first failure, never the empty-list error; FirstItemErrorNoneIff and FirstFailureDecides state which item it belongs to |
| TransactionForm.ValidationError | src/components/transactions/TransactionForm.tsx:70-89 | the empty-list error is reported exactly when there are no items; ValidationPassesIff states when nothing is reported |
| TransactionForm.ItemErrorIffUnacceptable | src/components/transactions/TransactionForm.tsx:76-89 | an item passes the three checks exactly when its name is not blank and its price and quantity are positive |
| TransactionForm.ValidationPassesIff | src/components/transactions/TransactionForm.tsx:69-89 | a submission passes exactly when there is at least one item and every item passes |
| TransactionForm.FirstItemErrorNoneIff | src/components/transactions/TransactionForm.tsx:76-89 | the loop finds no failure exactly when every item passes |
| TransactionForm.FirstFailureDecides | src/components/transactions/TransactionForm.tsx:76-89 | a reported error belongs to some item all of whose predecessors pass, and it is that item's first failing check |
| TransactionForm.CostPriceNotChecked | src/components/transactions/TransactionForm.tsx:76-89 | lists that differ only in cost prices get the same verdict and message |
| TransactionForm.ValidateItems | src/components/transactions/TransactionForm.tsx:69-89 | the loop with its early returns reports exactly the specified validation error |
| TransactionForm.OnSubmit | src/components/transactions/TransactionForm.tsx:69-105 | rejects exactly the invalid submissions and leaves the store alone then; updates exactly when editing a non-empty id; otherwise appends the new transaction and returns its id |
| Listing.InsertNewestFirst | src/pages/Dashboard.tsx:30-32 | insertion adds exactly the one transaction to the multiset |
| Listing.InsertKeepsBound | src/pages/Dashboard.tsx:30-32 | inserting a transaction no newer than a bound keeps everything within that bound |
| Listing.InsertKeepsNewestFirst | src/pages/Dashboard.tsx:30-32 | insertion into a newest-first list keeps it newest first |
| Listing.SortNewestFirst | src/pages/Dashboard.tsx:30-32 | the sort yields a permutation of its input, newest first |
| Listing.FilteredTransactions | src/pages/transactions/TransactionsPage.tsx:21-31 | the listing holds the same transactions as the month filter, newest first, and exactly the stored transactions of that month |
| Dashboard.TotalSales | src/pages/Dashboard.tsx:37-40 | the sales reduce; its contract is carried by SalesAndProfitOfConcat, SalesAndProfitOfOne and SalesAndProfitOfPermutation |
| Dashboard.TotalProfit | src/pages/Dashboard.tsx:42-45 | the profit reduce; its contract is carried by the same three lemmas as TotalSales |
| Dashboard.SalesAndProfitOfConcat | src/pages/Dashboard.tsx:37-45 | the sales and profit sums are additive over concatenation |
| Dashboard.SalesAndProfitOfOne | src/pages/Dashboard.tsx:37-45 | a single transaction's sums are its own amount and profit |
| Dashboard.SalesAndProfitOfSplice | src/pages/Dashboard.tsx:37-45 | taking one transaction out of a list takes its amount and profit out of the sums |
| Dashboard.SalesAndProfitOfPermutation | src/pages/Dashboard.tsx:37-45 | the sums depend only on which transactions are listed, not on their order |
| Dashboard.MakeDay | src/pages/Dashboard.tsx:48-49 | `new Date(y, m, d)` for d in 0..28: the month m is carried into the year, so the result's year × 12 + month is JsFullYear(y) × 12 + m, with day d; for d = 0 it is the month before that, on its last day |
| Dashboard.PeriodStart | src/pages/Dashboard.tsx:48 | `new Date(selectedYear, selectedMonth, 1)`; PeriodBounds states it is day 1 of the selected month |
| Dashboard.PeriodEnd | src/pages/Dashboard.tsx:49 | `new Date(selectedYear, selectedMonth + 1, 0)`; PeriodBounds states it is the last day of the selected month |
| Dashboard.PeriodBounds | src/pages/Dashboard.tsx:48-49 | the period runs from day 1 to the last day of the selected month, December included; the last day is between 28 and 31 |
| Dashboard.FebruaryEnd | src/pages/Dashboard.tsx:49 | February's period ends on the 29th exactly in leap years |
| Dashboard.PeriodEndExamples | src/pages/Dashboard.tsx:49 | concrete month ends: 2024 and 2000 February have 29 days, 2023 and 1900 February have 28, December has 31 and April has 30 |
| Dashboard.PeriodYearAgainstFilterYear | src/pages/Dashboard.tsx:24-49 | the period lies in the filtered year except for years 0 to 99, which `new Date` reads as 1900 to 1999 |
| Dashboard.Summarize | src/pages/Dashboard.tsx:36-58 | the summary's sales and profit are the sums over the listed transactions, its count is their number, and it spans the first to the last day of the selected month |
| Dashboard.MostRecent | src/pages/Dashboard.tsx:92 | `slice(0, 5)` of a newest-first listing is its first min(5, length) entries, and none of the rest is newer |
| Dashboard.BuildDashboard | src/pages/Dashboard.tsx:23-96 | the listing is the month filter newest first; count, sales and profit are those of the month's transactions, whatever the order; the recent list is `MostRecent` of the listing and holds only stored transactions of the month; the "see all" button shows exactly when some transaction is left out |
| Dashboard.CountIsNextSequence | src/pages/Dashboard.tsx:54 | the dashboard's count is the count the month's next id is numbered after |
| Dashboard.AddShowsOnDashboard | src/pages/Dashboard.tsx:23-58 | a transaction added in the selected month is listed, and raises the count by one and the sums by its own totals |
| Dashboard.AddElsewhereLeavesSummary | src/pages/Dashboard.tsx:23-58 | a transaction added in another month leaves the summary as it was |
| Dashboard.DeleteHidesFromDashboard | src/pages/Dashboard.tsx:23-33 | after a deletion no transaction with that id is listed |

## Left out

- Persistence is not modelled. The localStorage load and save effects, the `isLoading` flags and the JSON round trip are I/O and are left out. With them goes the re-creation of `Date` objects from stored strings.
- Toasts and navigation are not modelled. The `toast` messages are modelled as the `SubmitError` a refusal carries, and the `navigate` targets as the id in `SubmitOutcome`.
- React state scheduling is not modelled. Every state update is applied at once, in call order. `getNextTransactionCount` reading a stale `transactions` closure between two quick additions is not modelled.
- The `isLoading` branches of the pages are left out. So are all rendering and formatting: `formatCurrency`, `formatDate`, `formatTime`, `cn` and the month names.
- Other parts of the app are left out: receipts, printing and sharing, the settings form, the header and navigation components, and the summary cards' margin computation.
- The zod form schema is not modelled. `FormValues` holds what it yields.
- The conversion of the item inputs is left out (src/components/transactions/TransactionItemForm.tsx:104, 116, 130). `ItemEdit` carries the value after conversion. The model therefore does not show these behaviours:
  - an unparsable price or cost price becomes 0 through `parseFloat(…) || 0`;
  - a typed quantity of 0, or an unparsable one, becomes 1 through `parseInt(…) || 1`;
  - prices and cost prices may be fractional numbers, while the model uses integers.
- Time zones and local time are left out. A date is its local calendar fields plus a timestamp, and the timestamp is not tied to those fields.
- Decimal.NatToString: does not model JavaScript's exponential notation for numbers of 10^21 and above.
- Utils.YearFieldValue: stated only for years of 10 and later. For years 0 to 9, `slice(-2)` keeps a single digit.
- Dashboard.MakeDay: covers days 0 to 28 only, which include the 0 and 1 the dashboard passes. General day overflow is not modelled.
- TransactionItemForm.UpdateItem: `updateItem` can also overwrite an item's `id` field, but the form's inputs never do that, so `ItemEdit` has no case for it.
- TransactionContext.ApplyPatch: `items` present but `undefined` in a patch is not modelled. The form always passes an item array.
- Listing.SortNewestFirst: sorts newest first and, by construction, keeps equal timestamps in their stored order, but that stability is not proved.
- `Date.now()` ids of item lines: two lines added in the same millisecond would share an id. The id is a parameter here, and `RemoveAfterAdd` assumes it is fresh.
