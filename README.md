# Transaction ledger of a small bookkeeping app: a Dafny model

The app records income and expense transactions in the browser and shows
aggregates of them. This project models the part of it that has real logic:

- **the transaction store** (`src/store/transactionStore.ts`). It holds an
  ordered list of `Transaction` records and offers add, update, delete and
  lookup by id. It is modelled as the class `TransactionStore.Store`, whose
  field `transactions: seq<Transaction>` is replaced by each mutating method.
  The list-building steps (`map`, `filter`, `find`) are the pure functions
  `Updated`, `Deleted` and `Lookup`, each with its own properties.
- **the aggregation pipeline**. `Dashboard.tsx`, `ChartsGrid.tsx` and
  `StatsGrid.tsx` repeat the same computations. Each computation is
  defined once here:
  - `Totals`: totals by type (`stats`) and the two-slice pie (`pieData`).
  - `Monthly`: `monthlyData`, the per-month grouping.
  - `Categories`: `categoryData`, the per-category expense totals, sorted
    by value and cut to the top five.
  The two folds that mutate a dictionary accumulator are methods with
  loops (`Monthly.MonthlyData`, `Categories.CategoryData`). Each method is
  proved equal to a left-fold specification function, and the lemmas state
  the properties of those functions.
- **the table controller** (`TransactionTable.tsx`). It covers the
  date-sorted copy of the list and the `formOpen`/`editingTransaction` state
  machine, which sends a submitted form to `onUpdate` or `onAdd`. The
  machine is the class `TransactionTable.TableController`. Each handler
  returns the `Callback` it invokes.

Representation choices:

- The record's `type` field is called `kind` here, because `type` is a
  reserved word in Dafny. It stays a `string` so that records typed
  `"ingreso"`/`"gasto"` (the literals `StatsGrid.tsx` and the form use)
  remain distinct from `"income"`/`"expense"`.
- `amount` is an `int` number of cents.
- `reference` and `notes` are `Option<string>`.
- The month label is a parameter `monthOf: string -> string`. In the app
  it comes from locale date formatting.
- The date-to-timestamp conversion is a parameter `timeOf: string -> int`.
  In the app it is `new Date(d).getTime()`.
- `crypto.randomUUID()` becomes an id passed in by the caller. The caller
  must ensure the id is not already in the list. The store relies on this
  and never checks it.
- `Array.prototype.sort` with a comparator `(a, b) => key(b) - key(a)` is
  modelled as a stable insertion sort into non-increasing key order
  (`Sorting.SortByKeyDesc`).
- A JavaScript object used as an accumulator keeps its keys in insertion
  order. Here it is a sequence of entries that has at most one entry per
  key.

Behaviour of the code that the model keeps:

- update and delete of an unknown id do nothing and report nothing.
- `categoryData` opens a bucket, valued 0, for every category it meets,
  including categories that appear only on income records.
- `monthlyData` counts every record whose type is not `"income"` as an
  expense.

## Model

| member | source | states |
|---|---|---|
| `Transactions.WithId` | src/store/transactionStore.ts:18-21 | the new record carries exactly the given fields plus the given id |
| `TransactionStore.Updated` | src/store/transactionStore.ts:26-32 | update keeps length and order; a record whose id differs is unchanged; a record whose id matches becomes the new fields with that same id |
| `TransactionStore.Deleted` | src/store/transactionStore.ts:33-37 | a record survives delete exactly when it was in the list and its id differs; the list never grows |
| `TransactionStore.Lookup` | src/store/transactionStore.ts:38-40 | lookup finds nothing exactly when the id is absent; otherwise it returns a record with that id, and no earlier record has that id |
| `TransactionStore.AddKeepsIdsUnique` | src/store/transactionStore.ts:17-25 | appending a record under an id not yet present keeps ids unique |
| `TransactionStore.UpdateKeepsIdsUnique` | src/store/transactionStore.ts:26-32 | update keeps ids unique and leaves the set of ids unchanged |
| `TransactionStore.DeleteKeepsIdsUnique` | src/store/transactionStore.ts:33-37 | delete keeps ids unique |
| `TransactionStore.UpdateAbsentIsNoOp` | src/store/transactionStore.ts:28-30 | update with an id that is not in the list leaves the list unchanged |
| `TransactionStore.DeleteAbsentIsNoOp` | src/store/transactionStore.ts:35 | delete with an id that is not in the list leaves the list unchanged |
| `TransactionStore.DeletedDistributes` | src/store/transactionStore.ts:35 | delete keeps the survivors in their original relative order: filtering a concatenation is the concatenation of the filtered parts |
| `TransactionStore.DeletePresentRemovesOne` | src/store/transactionStore.ts:33-37 | with unique ids, deleting a present id removes exactly one record |
| `TransactionStore.LookupAfterUpdate` | src/store/transactionStore.ts:26-40 | after update(id, f) on a present id, getById(id) yields f with that id |
| `TransactionStore.LookupAfterDelete` | src/store/transactionStore.ts:33-40 | after delete(id), getById(id) yields nothing |
| `TransactionStore.LookupAfterAdd` | src/store/transactionStore.ts:17-40 | after add under a fresh id, getById(id) yields the new record |
| `TransactionStore.Store.constructor` | src/store/transactionStore.ts:16 | the store starts with an empty list, which satisfies the unique-id invariant |
| `TransactionStore.Store.AddTransaction` | src/store/transactionStore.ts:17-25 | the new list is the old list plus one record at the end, so every earlier record keeps its position; with a fresh id, unique ids are preserved |
| `TransactionStore.Store.UpdateTransaction` | src/store/transactionStore.ts:26-32 | the new list is `Updated` of the old one; unique ids are preserved |
| `TransactionStore.Store.DeleteTransaction` | src/store/transactionStore.ts:33-37 | the new list is `Deleted` of the old one; unique ids are preserved; in a store with unique ids, deleting a present id removes exactly one record |
| `TransactionStore.LookupIsOnlyMatch` | src/store/transactionStore.ts:38-40 | with unique ids, the record `find` returns is the only record with that id |
| `TransactionStore.Store.GetTransactionById` | src/store/transactionStore.ts:38-40 | a read-only lookup: nothing is returned exactly when the id is absent; otherwise the result is a stored record with that id, and in a store with unique ids it is the only one |
| `Sorting.Insert` | src/components/Dashboard.tsx:79 | one insertion step of the sort: inserting into a sorted list keeps it sorted, adds exactly that element and lengthens the list by one |
| `Sorting.SortByKeyDesc` | src/components/Dashboard.tsx:79 | the sort returns a permutation of its input with keys non-increasing |
| `Totals.OfKind` | src/components/Dashboard.tsx:34 | a record is in the filtered list exactly when it is in the input and has the given type; the list never grows |
| `Totals.OfKindCounts` | src/components/Dashboard.tsx:34 | the filter keeps every occurrence of a record of the given type, as often as it occurs in the input, and no other record |
| `Totals.OfKindDistributes` | src/components/Dashboard.tsx:34 | the filter keeps relative order: filtering a concatenation is the concatenation of the filtered parts |
| `Totals.SumOfKind` | src/components/Dashboard.tsx:33-38 | the fused filter-and-reduce equals the total of the amounts of the records the filter keeps; the same expression is at src/components/ChartsGrid.tsx:52-57 and src/components/StatsGrid.tsx:17-23 |
| `Totals.StatsOf` | src/components/Dashboard.tsx:32-42 | income and expenses are the totals of the records carrying the two given type literals; balance is income minus expenses; count is the list length |
| `Totals.SumOfKindNonNegative` | src/components/Dashboard.tsx:33-38 | with non-negative amounts, a filter-and-sum by type is non-negative |
| `Totals.SumOfAbsentKindIsZero` | src/components/StatsGrid.tsx:17-23 | filtering on a type literal that no record carries sums to 0 |
| `Totals.KindSumsCoverTotal` | src/components/Dashboard.tsx:33-38 | for well-typed records, the "income" sum plus the "expense" sum is the sum of all amounts |
| `Totals.DashboardStats` | src/components/Dashboard.tsx:32-42 | income is the sum of "income" amounts and expenses the sum of "expense" amounts; balance is income minus expenses; count is the list length; an empty list gives all zeros |
| `Totals.DashboardStatsNonNegative` | src/components/Dashboard.tsx:33-41 | with non-negative amounts, income and expenses are non-negative |
| `Totals.DashboardStatsCoverTotal` | src/components/Dashboard.tsx:33-38 | for well-typed records, income plus expenses accounts for every amount |
| `Totals.StatsGridStats` | src/components/StatsGrid.tsx:16-28 | income sums the "ingreso" amounts and expenses the "gasto" amounts; balance is income minus expenses; count is the list length whatever the types; an empty list gives all zeros |
| `Totals.StatsGridStatsVanish` | src/components/StatsGrid.tsx:17-27 | for records typed "income"/"expense", StatsGrid's income, expenses and balance are all 0 and its count is the list length |
| `Totals.StatsGridMissesIncome` | src/components/StatsGrid.tsx:18 | for one income record of 1000, Dashboard reports income 1000 and StatsGrid reports 0 |
| `Totals.DashboardMissesFormIncome` | src/components/Dashboard.tsx:33-38 | for one record of 1000 typed "ingreso", as the form writes it, Dashboard's stats and pie show 0 while StatsGrid shows income 1000 |
| `Totals.PieData` | src/components/ChartsGrid.tsx:51-63 | exactly two slices, "Ingresos" then "Gastos", valued at the income and expense totals of `stats` (the same code is in Dashboard.tsx:83-95) |
| `Monthly.IndexOfMonth` | src/components/Dashboard.tsx:50 | `acc[month]`: the position of the bucket for the month, or the end of the list if no bucket has that month yet |
| `Monthly.AddToMonth` | src/components/Dashboard.tsx:46-58 | one reducer step keeps every existing bucket's month label in place and adds at most one bucket, which is labelled with the record's month |
| `Monthly.MonthlyGroups` | src/components/Dashboard.tsx:45-59 | the grouping has no more buckets than transactions, and at least one when there is a transaction |
| `Monthly.FormIncomeBookedAsExpense` | src/components/Dashboard.tsx:53-57 | a record of 1000 typed "ingreso" lands in its month's expenses, with income 0 |
| `Monthly.MonthlyData` | src/components/Dashboard.tsx:44-60 | the in-place fold over the transactions produces exactly the groups of the left-fold specification `MonthlyGroups` |
| `Monthly.AddToMonthKeys` | src/components/ChartsGrid.tsx:34-36 | one reducer step keeps month labels distinct and adds the record's month |
| `Monthly.AddToMonthCredits` | src/components/ChartsGrid.tsx:38-42 | one reducer step credits the bucket of the record's month and only it, to income for "income" records and to expenses otherwise; a new bucket is created only for a month not seen before |
| `Monthly.AddToMonthTotal` | src/components/ChartsGrid.tsx:38-43 | one reducer step raises the grand total of the buckets by the record's amount |
| `Monthly.MonthlyGroupsKeys` | src/components/Dashboard.tsx:45-60 | month labels are unique and are exactly the months of the transactions; there are no more entries than transactions, so an empty list gives none |
| `Monthly.MonthlyGroupsSums` | src/components/Dashboard.tsx:53-57 | for each month, income is the sum of that month's "income" amounts and expenses the sum of all its other amounts |
| `Monthly.MonthlyGroupsConserveTotal` | src/components/ChartsGrid.tsx:38-43 | income plus expenses over all months equals the sum of all amounts, whatever the types |
| `Categories.IndexOfCategory` | src/components/Dashboard.tsx:68 | `acc[t.category]`: the position of the category's bucket, or the end of the list if there is none |
| `Categories.AddToCategory` | src/components/Dashboard.tsx:68-74 | one reducer step keeps every existing bucket's name in place and adds at most one bucket, which is named after the record's category |
| `Categories.CategoryGroups` | src/components/Dashboard.tsx:67-75 | the grouping has no more buckets than transactions, and at least one when there is a transaction |
| `Categories.TopCategories` | src/components/Dashboard.tsx:77-80 | at most five entries (exactly five when there are that many); values non-increasing; the entries are a sub-multiset of the groups, so no group appears more often than it does among the groups; with fewer than five groups, all of them are kept |
| `Categories.FormExpenseNotCharged` | src/components/Dashboard.tsx:71-73 | a record of 1000 typed "gasto" opens its category's bucket but leaves it at 0 |
| `Categories.CategoryData` | src/components/Dashboard.tsx:66-81 | the in-place fold followed by sort and slice produces exactly the top five of the left-fold specification `CategoryGroups` |
| `Categories.AddToCategoryKeys` | src/components/Dashboard.tsx:68-70 | one reducer step keeps category names distinct and adds the record's category, whatever its type |
| `Categories.AddToCategoryCharges` | src/components/Dashboard.tsx:68-73 | one reducer step changes only the record's category bucket, adding the amount to it only for "expense" records; a bucket opens at 0 only for a new category |
| `Categories.CategoryWithoutExpensesIsZero` | src/components/Dashboard.tsx:71-73 | a category that has no "expense" record sums to 0 |
| `Categories.CategoryGroupsKeys` | src/components/Dashboard.tsx:67-75 | there is one bucket per category seen, income categories included; names are distinct; there are no more buckets than transactions |
| `Categories.CategoryGroupsValues` | src/components/Dashboard.tsx:67-75 | each bucket's value is the sum of its category's "expense" amounts |
| `Categories.CategoryGroupsTotal` | src/components/Dashboard.tsx:71-73 | the bucket values add up to the "expense" total that `stats` reports |
| `Categories.TopCategoriesAreLargest` | src/components/Dashboard.tsx:79-80 | any group the cut drops has a value no larger than every kept entry |
| `Categories.TopCategoriesDistinct` | src/components/Dashboard.tsx:77-80 | sorting and cutting keep category names distinct |
| `Categories.CategoryDataSpec` | src/components/Dashboard.tsx:66-81 | `categoryData` has at most five entries, ordered by non-increasing value, with distinct names taken from the transactions; each value is that category's "expense" sum, so a category seen only on income records shows 0 |
| `TransactionTable.SortedTransactions` | src/components/TransactionTable.tsx:55-57 | the sorted list is a permutation of the transactions, ordered by date non-increasing; the input is a value and is not modified |
| `TransactionTable.HandleDelete` | src/components/TransactionTable.tsx:49-53 | `onDelete(id)` is called only when the confirmation is accepted; otherwise nothing is called |
| `TransactionTable.TableController.constructor` | src/components/TransactionTable.tsx:29-32 | the form starts closed with nothing being edited |
| `TransactionTable.TableController.HandleEdit` | src/components/TransactionTable.tsx:34-37 | sets the edited record and opens the form |
| `TransactionTable.TableController.HandleNew` | src/components/TransactionTable.tsx:69-72 | clears the edited record and opens the form |
| `TransactionTable.TableController.HandleSubmit` | src/components/TransactionTable.tsx:39-47 | while editing, calls `onUpdate` with the edited record's id (never `onAdd`) and clears editing; otherwise calls `onAdd` (never `onUpdate`); the form ends closed in both cases |
| `TransactionTable.TableController.OnOpenChange` | src/components/TransactionTable.tsx:179-182 | sets the form's open flag; closing the form always clears editing; the invariant "editing implies the form is open" is kept |

## Left out

- Persistence: zustand's `persist` middleware and local storage, with the storage key `transaction-storage` (src/store/transactionStore.ts:14, 42-44). This is a foreign library and browser I/O.
- `crypto.randomUUID()`: a foreign call. The fresh id is a parameter of `AddTransaction`.
- Floating-point amounts and `parseFloat`. Amounts are integer cents, so the model has no rounding and no `NaN`.
- The chronological sort of `monthlyData` (src/components/Dashboard.tsx:61-63, src/components/ChartsGrid.tsx:46-48) is not modelled. Its comparator parses the locale month label back with `new Date`, which depends on the JavaScript date parser. `Monthly.MonthlyData` returns the groups in insertion order, and no claim is made about their chronological order.
- Locale formatting of the month label: it is the parameter `monthOf`.
- Date parsing in the table sort: it is the parameter `timeOf`. An invalid date, whose time is `NaN` and makes the comparator inconsistent, is not modelled.
- JavaScript object key order puts integer-like keys (a category named "2024", say) first. The model keeps all keys in insertion order.
- The `categoryData` accumulator is a plain `{}` (src/components/Dashboard.tsx:67-75), which inherits the members of `Object.prototype`. For a category named "toString" or "constructor", `!acc[t.category]` is false, so no bucket opens at 0; an expense then turns the value into a string, and an income-only record adds no entry. A category named "__proto__" never gets an entry. The model opens a numeric bucket for every name.
- Sorting.SortByKeyDesc: stability of the sort (ties keep input order) holds by construction but is not stated as a lemma.
- The `confirm()` dialog is a boolean input to `HandleDelete`.
- Wiring of the components: the model takes the transaction list and the three callbacks as the components' declared props (src/components/TransactionTable.tsx:16-21, src/components/Dashboard.tsx:27-29). The routes in src/main.tsx:15-16 mount `Dashboard` and `TransactionTable` without any props, so nothing connects them to the store there. The handlers return the callback they would invoke.
- The store reports neither an unknown id nor a storage failure; the model has no error results.
- TransactionForm.tsx: form state with a clock-dependent default date and float parsing.
- All rendering, routing and styling (recharts charts, dialog, sheet, button, sidebar, menu, app shell).

## Findings

| source | as written | input that shows it | evidently intended | confidence | as-written member | corrected member |
|---|---|---|---|---|---|---|
| src/components/StatsGrid.tsx:18-22 | two literal sets for the type are in use. `TransactionType` (src/types/transaction.ts:1) and Dashboard/ChartsGrid (src/components/Dashboard.tsx:34,37) use `"income"`/`"expense"`. StatsGrid filters on `"ingreso"`/`"gasto"`, and TransactionForm writes only those (default at src/components/TransactionForm.tsx:29,44, options at 119-120) | a record typed "income" of 1000: Dashboard shows 1000, StatsGrid 0. A record made by the form, typed "ingreso", of 1000: Dashboard's stats and pie show 0, `monthlyData` books it as an expense, StatsGrid shows 1000. A form-made "gasto" record of 1000 is charged to no category | one literal set throughout; the model uses the record type's `"income"`/`"expense"` | medium, not executed; which set the authors intended to keep is open, since the form writes the other one | `Totals.StatsGridMissesIncome`, `Totals.DashboardMissesFormIncome` | `Totals.DashboardStats` |
