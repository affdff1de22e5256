# Travel expenses: trip store, expense ledger and currency catalogue

A Dafny model of the logic core of a React Native travel-expense app. Users
create trips, each with a base and a local currency and a short list of
currencies. They record expenses against a trip and see a total converted
into the base currency. The model covers these parts:

- **Trip store** (`trip_store.dfy`, module `TripStore`). The two persisted
  entries `allTrips` and `currentTrip` are one immutable `State` record. The
  model covers `saveCurrentTrip`, `removeFromTrips`, `saveTrip`, `getNewTrip`,
  `getCurrentTrip`, `getCurrentTripName` and `getTrips`. The invariants are
  pairwise-distinct ids and "the current trip is an element of `allTrips`".
- **Expense ledger** (`expense_ledger.dfy`, module `ExpenseLedger`).
  `addExpense` prepends. `calcTotal` is the literal left fold of the source
  (`Reduce`), and it can fail. `ConvertedSum` is an independent reference sum,
  tied to the fold by `Reduce`'s contract. `getRecentExpenses` is modelled
  with its symbol substitution.
- **Currency catalogue** (`currency_catalogue.dfy`, module `CurrencyCatalogue`).
  It holds the built-in list of eight currencies, `find` by code, and the rate
  merge inside `updateExchangeRates`. It also models `setupData`, which drops
  the merged list.
- **Short-list screen** (`short_list.dfy`, module `ShortList`). This is the
  all-or-nothing guard of `handleRemoveFromShortList` and the selection toggle
  of `handleCurrencySelect`.
- **Currency picker order** (`currency_order.dfy`, module `CurrencyOrder`).
  The comparator sort in `CurrencyPicker` is modelled as a stable partition.

`types.dfy` holds the records and `wrappers.dfy` holds `Option` and `Result`.
Amounts and rates are Dafny `real`s. Trip ids, expense ids and timestamps are
strings supplied by the caller. Persistence is an abstract state, and every
write succeeds.

Behaviour of the code that a reader might not expect, and that the model keeps:

- `calcTotal` multiplies the base rate by the expense currency's rate
  (utils/expenseUtils.ts:39); it never divides. A USD expense is never
  looked up; it is multiplied by the base rate alone.
- `setupData` computes the merged catalogue and then discards it. The
  built-in list is never mutated, so every rate the totals see is 1.0
  (`TotalsAfterSetupIgnoreFetchedRates`).
- `removeFromTrips` clears the current trip only when no trip is left. A
  deleted current trip otherwise stays current (`RemovalCanLeaveCurrentDangling`).
- `saveTrip` gives an edited trip the expenses of whichever trip is current,
  not its own (`SaveTripUpdatesInPlace`). It does not check that the base and
  local currencies are in the trip's currency list.
- The declared `Trip` type lacks `localCurrency` and `currenciesList`, but the
  store writes them, so the Dafny `Trip` has them. Base and local are
  `Option`s, because `getNewTrip` takes them from the head of a list that may
  be empty.
- `calcTotal` and the short-list guard read a fixed list of sample
  expenses through `getExpenses`, and `getRecentExpenses` slices that sample
  list directly. Neither reads the module-level list that `addExpense`
  changes. The model takes the expense list as a parameter.
- A failing total reports the code of the *first* unresolved expense. Failure
  and the total are invariant under permutation; that error payload is not.

## Model

| member | source | states |
|---|---|---|
| CurrencyCatalogue.BasicCurrencies | utils/currencyUtils.ts:3-12 | the built-in catalogue has 8 entries, USD first, pairwise-distinct codes, non-empty symbols and every rate 1.0 |
| CurrencyCatalogue.FindCurrency | utils/expenseUtils.ts:21 | `find` by code: none iff no entry has the code; otherwise the first entry with that code |
| CurrencyCatalogue.MergeRates | utils/currencyUtils.ts:26-31 | merging keeps length, order and each entry's code, name and symbol; a rate becomes `rates[code]` exactly when the table has a non-zero value for the code, otherwise it is kept |
| CurrencyCatalogue.UpdateExchangeRates | utils/currencyUtils.ts:18-39 | a failed fetch returns the input list; a received table gives the merge: same length, each entry's code, name and symbol kept, and its rate replaced exactly when the table holds a non-zero rate for its code |
| CurrencyCatalogue.SetupData | utils/currencyUtils.ts:42-48 | after setup the catalogue still has 8 entries, all at rate 1.0, whatever the fetch returned |
| CurrencyCatalogue.MergeRatesIdempotent | utils/currencyUtils.ts:26-31 | merging the same table twice equals merging it once |
| CurrencyCatalogue.MergeWithoutRatesIsIdentity | utils/currencyUtils.ts:27-36 | an empty table or a failed fetch leaves the list unchanged |
| CurrencyCatalogue.SetupDataDropsFetchedRate | utils/currencyUtils.ts:42-47 | for a fetched non-zero rate other than 1.0 on a built-in code, the merge `setupData` computes carries that rate while the catalogue left after setup still has 1.0 |
| TripStore.FindTripIndex | utils/tripUtils.ts:61 | `findIndex` by id: none iff no trip has the id; otherwise the first position holding it |
| TripStore.GetCurrentTripName | utils/tripUtils.ts:77-92 | the current trip's name, or the empty string when there is none |
| TripStore.GetNewTrip | utils/tripUtils.ts:25-36 | a blank trip: empty name and expenses, the whole list as `currenciesList`, base and local both the list's head (absent when the list is empty) |
| TripStore.SaveCurrentTrip | utils/tripUtils.ts:54-74 | the trip becomes current and is in `allTrips`; for a known id the first trip with that id is replaced in place, length kept; an unknown id is appended at the end |
| TripStore.SaveCurrentTripPreservesUniqueIds | utils/tripUtils.ts:61-69 | saving keeps trip ids pairwise distinct and leaves the current trip an element of `allTrips` |
| TripStore.KeepTrips | utils/tripUtils.ts:42 | a trip survives the filter iff it was stored and its id is not listed |
| TripStore.KeepTripsConcat | utils/tripUtils.ts:42 | the filter distributes over concatenation, so survivors keep their original order |
| TripStore.KeepTripsIdentityWhenNoneListed | utils/tripUtils.ts:42 | when no stored id is listed, the collection is unchanged |
| TripStore.RemoveFromTrips | utils/tripUtils.ts:38-52 | the collection becomes the trip filter's result, so exactly the unlisted trips survive in their original order; clears the current trip when none is left, otherwise leaves it untouched |
| TripStore.RemoveFromTripsKeepsOrder | utils/tripUtils.ts:41-43 | removing from a concatenation equals removing from each part and concatenating, so survivors keep their original order |
| TripStore.RemoveFromTripsPreservesUniqueIds | utils/tripUtils.ts:41-43 | removal keeps trip ids pairwise distinct |
| TripStore.RemovalCanLeaveCurrentDangling | utils/tripUtils.ts:41-48 | removing the current trip's id while other trips remain leaves it current with no stored trip of that id |
| TripStore.ReadBackAfterSaveCurrentTrip | utils/tripUtils.ts:8-23 | after `saveCurrentTrip`, `getCurrentTrip` returns the saved trip, `getTrips` contains it and `getCurrentTripName` returns its name |
| TripStore.ReadBackAfterRemovingAll | utils/tripUtils.ts:94-109 | after `removeFromTrips` lists every stored id, `getTrips` returns the empty list, `getCurrentTrip` returns nothing and `getCurrentTripName` the empty string |
| TripStore.KeepTripsAllListed | utils/tripUtils.ts:42 | when every stored id is listed, the filter keeps nothing |
| TripStore.SaveTrip | utils/tripUtils.ts:111-151 | the saved trip is current, stored in `allTrips`, and carries the given name, base, local and currency list |
| TripStore.SaveTripUpdatesInPlace | utils/tripUtils.ts:117-129 | editing a known id keeps position, id and creation time, overwrites name and currencies, takes the current trip's expenses (empty if none), leaves other trips unchanged and makes it current |
| TripStore.SaveTripAppendsNewTrip | utils/tripUtils.ts:132-145 | with an empty or unknown id and a fresh new id, exactly one trip with no expenses is appended after the unchanged old ones and becomes current |
| TripStore.ReadBackAfterSaveTrip | utils/tripUtils.ts:8-23 | after `saveTrip`, `getCurrentTrip` returns a trip with the given name that `getTrips` also contains |
| TripStore.SaveTripPreservesUniqueIds | utils/tripUtils.ts:111-146 | with a fresh generated id, saving keeps trip ids pairwise distinct |
| ExpenseLedger.AddExpense | utils/expenseUtils.ts:10-13 | the new expense is first and the old list follows unchanged; the multiset grows by exactly that expense |
| ExpenseLedger.Reduce | utils/expenseUtils.ts:28-42 | the fold succeeds iff every expense is in the base currency, USD or catalogued, and then yields the accumulator plus the reference converted sum |
| ExpenseLedger.ReduceFailureNamesFirstUnresolved | utils/expenseUtils.ts:34-38 | a failing fold reports the code of the first expense that does not resolve |
| ExpenseLedger.CalcTotal | utils/expenseUtils.ts:19-46 | fails when the base code is not catalogued; otherwise succeeds iff every expense resolves, with the converted sum as value |
| ExpenseLedger.CalcTotalPermutationInvariant | utils/expenseUtils.ts:28-42 | whether the total fails, and its value, do not depend on the order of the expenses |
| ExpenseLedger.OneExpenseInBaseCurrency | utils/expenseUtils.ts:29-30 | an expense in the base currency contributes its amount unchanged |
| ExpenseLedger.OneUsdExpense | utils/expenseUtils.ts:31-33 | a non-base USD expense contributes amount times the base rate |
| ExpenseLedger.OneExpenseInOtherCurrency | utils/expenseUtils.ts:34-40 | any other catalogued currency contributes amount times base rate times its own rate |
| ExpenseLedger.OneUncataloguedExpense | utils/expenseUtils.ts:35-38 | an uncatalogued code other than the base and USD fails, naming that code |
| ExpenseLedger.CalcTotalFailsOnUncataloguedExpense | utils/expenseUtils.ts:35-38 | one such expense anywhere in the list makes the total fail |
| ExpenseLedger.CalcTotalInBaseCurrency | utils/expenseUtils.ts:29-30 | when every expense is in the base currency the total is the plain sum of amounts |
| ExpenseLedger.CalcTotalAtUnitRates | utils/expenseUtils.ts:28-42 | over any catalogue that lists USD and holds only 1.0 rates, the total succeeds iff every expense code is catalogued, and then equals the plain sum of amounts |
| ExpenseLedger.CalcTotalOverBasicCurrencies | utils/expenseUtils.ts:20-42 | over the built-in catalogue the total succeeds iff the base code and every expense code are catalogued, and then equals the plain sum of amounts |
| ExpenseLedger.TotalsAfterSetupIgnoreFetchedRates | utils/currencyUtils.ts:42-47 | after `setupData`, whatever was fetched, totals are those of the all-1.0 catalogue: the plain sum of amounts |
| ExpenseLedger.CalcTotalAfterAddExpense | utils/expenseUtils.ts:28-42 | for any list, prepending a resolvable expense keeps success unchanged and adds its converted amount to the total |
| ExpenseLedger.DisplayExpense | utils/expenseUtils.ts:52-56 | only `currency` changes: it becomes the catalogue symbol when the code is found with a non-empty symbol, and is kept otherwise |
| ExpenseLedger.DisplayAll | utils/expenseUtils.ts:51-57 | the map keeps length and puts each expense, position by position, in display form |
| ExpenseLedger.GetRecentExpenses | utils/expenseUtils.ts:48-59 | the first min(10, n) expenses in their original order, each in display form, with id and amount kept |
| ExpenseLedger.RecentAfterAddExpense | utils/expenseUtils.ts:48-59 | for any list, the recent projection of the list with `e` prepended is `e` in display form followed by the first nine entries of the list's own recent projection |
| ShortList.SomeExpenseUses | app/currencies_config.tsx:61 | true iff some expense's currency is among the selected codes |
| ShortList.RemovalGuard | app/currencies_config.tsx:55-65 | no selection gives nothing to do; any expense using a selected code rejects the whole removal; otherwise all selected codes are requested and none is used by an expense |
| ShortList.HandleRemoveFromShortList | app/currencies_config.tsx:55-78 | an empty selection or a code in use leaves list and selection unchanged; otherwise the selection is emptied iff the removal succeeded and the list is the one read back |
| ShortList.Without | app/currencies_config.tsx:84 | removes every copy of the code and keeps every other code |
| ShortList.Toggle | app/currencies_config.tsx:80-89 | toggling flips whether the code is selected and keeps the membership of every other code |
| ShortList.ToggleKeepsOthersInOrder | app/currencies_config.tsx:83-87 | the other codes keep their relative order |
| ShortList.ToggleKeepsDistinct | app/currencies_config.tsx:83-87 | a selection without duplicates stays without duplicates |
| ShortList.ToggleTwiceRestores | app/currencies_config.tsx:84-86 | toggling an unselected code twice restores the selection exactly |
| CurrencyOrder.Reorder | components/CurrencyPicker.tsx:13-17 | with no selection the order is kept; with one, every entry carrying the selected code precedes every other entry |
| CurrencyOrder.ReorderIsPermutation | components/CurrencyPicker.tsx:13-17 | the reordered list is a permutation of the input |
| CurrencyOrder.ReorderKeepsOthersInOrder | components/CurrencyPicker.tsx:13-17 | entries not carrying the selected code keep their relative order |
| CurrencyOrder.ReorderAbsentIsIdentity | components/CurrencyPicker.tsx:13-17 | when no entry carries the selected code, the order is unchanged |
| CurrencyOrder.ReorderSingleMovesToFront | components/CurrencyPicker.tsx:14 | a code carried by exactly one entry puts that entry at index 0, the rest following in their original order |

## Left out

- Concurrency: each asynchronous operation is one atomic transition of the store. No other operation interleaves at its awaits, for example between `saveTrip`'s write of `allTrips` and `saveCurrentTrip`'s re-read.
- Persistence: AsyncStorage reads and writes, JSON (de)serialisation and the try/catch blocks that log and swallow errors. The store is an abstract `State` and every write succeeds.
- RecentAfterAddExpense: relates `addExpense` and `getRecentExpenses` through one shared expense list, which the program does not have: `getRecentExpenses` slices the sample list, so its result does not change after `addExpense`.
- CalcTotalAfterAddExpense: likewise assumes a shared list; `calcTotal` reads the sample list through `getExpenses`, not the list `addExpense` changes.
- SaveCurrentTrip: the guard for a missing trip argument (utils/tripUtils.ts:57-60) is not modelled, because the Dafny `Trip` type has no null.
- SaveTripAppendsNewTrip: holds only when the generated id is fresh. A colliding UUID would overwrite the older trip and also append a duplicate; random id generation is not modelled.
- The exchange-rate HTTP request: `UpdateExchangeRates` takes the fetched table, or a failure, as a parameter. A response without `rates` counts as a failure, since looking up a code in it throws and the caller catches that.
- MergeRates: keys that JavaScript finds on the object prototype (such as `constructor`) are not modelled; the table is a plain map of reals.
- UUID generation and `new Date().toISOString()` become parameters.
- `utils/locationUtils.ts` (location permission, GPS, reverse geocoding) is device I/O.
- Rendering, navigation and styling in `app/*`, `components/*`, `styles/*`, `App.tsx` and `index.ts`. Also `utils/debug.ts`, which only logs.
- The country list sorted with `localeCompare` (app/currencies_config.tsx:33): locale collation is a foreign call.
- `addToShortList`, `removeFromShortList`, `getCurrenciesList`, `getCurrencies`, `countryToCurrency` and the `Currency` type file are not part of this model. The removal's outcome and the reloaded list are parameters of `HandleRemoveFromShortList`, and `getNewTrip`'s currency list is a parameter of `GetNewTrip`.
- `saveExpenses`, the sample expense data and the `expenseCategories` list: a storage write and constant UI data.
- The text of the thrown error messages. The base-currency message interpolates the missing (undefined) object, not the code.
- IEEE-754 rounding, NaN and `toFixed` display formatting: amounts and rates are exact reals.
- Reorder: the comparator is not a consistent comparator in the ECMAScript sense whenever any entry carries the selected code. It returns -1 when it compares such an entry with itself, and with several carriers it returns -1 in both directions. The ECMAScript definition of `Array.prototype.sort` then leaves the whole sort order implementation-defined. The model gives the result of an engine that sorts stably and never compares an entry with itself: selected entries first, everyone else in original order. `Reorder`, `ReorderKeepsOthersInOrder` and `ReorderSingleMovesToFront` state that outcome, not a promise of the source.
- Reorder: the source sorts its argument in place, which also reorders the caller's list. The model returns a new list.
