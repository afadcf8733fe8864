# Inventory and sales core, in Dafny

A model of the stock-and-sales logic of a small shop inventory application.
The application has a Tk front end (`inventory_ui.py`) that keeps a stock list, a ledger of
completed sales (the `sell_history` table) and a user list. It also has an older console front end
(`inventory.py`) that edits a list of items.

The model covers:

- **The sale** (`sell_item`'s submit). It checks the customer's name (letters and spaces) and
  ten-digit contact. It resolves the item by the first stock entry with that exact name and checks
  `0 < quantity <= stock`. It commits the stock decrement, and only then checks that the discount
  percentage is in [0, 100]. Last, it appends a ledger row whose totals are `qty * price`, the
  discount amount and their difference, with a snapshot of the item's cost price.
- **The customer correction** (`save_edit`). The new identity must pass the sale's checks. Every
  ledger row whose stored name and contact both equal the old pair is rewritten in place.
- **The reports**, each a fold over the ledger:
  - the summary (three totals and a count);
  - profit/loss, where cost prices come from a name-to-cost dictionary in which the last duplicate
    name wins;
  - the customer report (purchases and spending per (name, contact) key);
  - the customer list (complete keys, each once, in order of first appearance);
  - the autofill lookup (the most recent name stored for a contact).
- **Small helpers**: the next user id, user lookup by name and by id, the add-user checks, the
  case-insensitive search filter and the stock list's grand total.
- **The console front end's add, edit and delete**, as in-place updates of a list.

Modules, one file each:

- `Common`: `Option` and `LineTotal`.
- `Sums`: a generic sum over a sequence, with its append, update and pointwise lemmas.
- `Validation`: the identity checks.
- `Ledger`: the ledger row, the defaults for missing fields, and the pricing identities a row satisfies.
- `Stock`: stock items, lookup, grand total and search.
- `Users`: the user helpers.
- `Reports`: the summary and profit/loss reports.
- `Customers`: the customer report, the customer list and the autofill lookup.
- `Shop`: the sale and correction step functions, and the class `InventoryApp`, whose methods do
  the same in place.
- `ConsoleInventory`: the class `ConsoleStock` for `inventory.py`.

Each state-changing method is proved equal to a pure step function. The properties are proved
about those functions. Money is `real`, so the arithmetic identities hold exactly.

## Model

| member | source | states |
|---|---|---|
| Validation.CheckIdentity | inventory_ui.py:521-533 | the four identity checks in the source's order: rejected with EmptyName iff the name is empty; with NameNotAlphabetic iff a non-empty name has a character outside `[A-Za-z ]`; with EmptyContact iff the name is valid and the contact is empty; with ContactNotTenDigits iff the name is valid and a non-empty contact is not ten digits; accepted iff both are valid |
| Stock.FirstIndexByName | inventory_ui.py:535-539 | the result is the first position holding the name, or the list's length when no item has it |
| Stock.FindByName | inventory_ui.py:535-539 | the scan stops at the first item with the requested name (the first duplicate wins) |
| Stock.StockReportTotal | inventory_ui.py:971-975 | the stock report's running total equals the sum of quantity times price over the stock list |
| Stock.GrandTotalAfterDecrement | inventory_ui.py:343-347 | taking `qty` units out of one item lowers the grand total by `qty` times that item's price |
| Stock.GrandTotal | inventory_ui.py:345 | the grand total of an empty list is 0, and it is never negative while no quantity or price is |
| Stock.Search | inventory_ui.py:319-324 | an empty query keeps the whole list; otherwise an item is kept iff its lower-cased name contains the lower-cased query; never longer than the list |
| Stock.FilterByName | inventory_ui.py:324 | an item is in the result iff it is in the list and its lower-cased name contains the query |
| Stock.FilterByNameAppend | inventory_ui.py:321-324 | the filter keeps the list's order: filtering a concatenation concatenates the filtered parts |
| Stock.SearchAppend | inventory_ui.py:319-324 | the search keeps the list's order: searching a concatenation concatenates the searched parts; with the membership facts this fixes the result exactly |
| Stock.SearchIdempotent | inventory_ui.py:319-324 | searching a search result with the same query returns it unchanged |
| Users.MaxId | inventory_ui.py:121 | the largest id in a non-empty user list: some user has it and no user's id exceeds it |
| Users.NextUserId | inventory_ui.py:118-121 | 1 for an empty list, otherwise one more than the largest id: it exceeds every id, and one less is some user's id |
| Users.FindUserByUsername | inventory_ui.py:123-127 | the first user with the name, or None iff no user has it |
| Users.FindUserById | inventory_ui.py:129-133 | the first user with the id, or None iff no user has it |
| Users.AddUserStep | inventory_ui.py:766-773 | rejected for an empty user name or password; rejected iff the name is taken; otherwise one user is appended whose id is the next user id, above every existing one; a rejection leaves the list unchanged |
| Users.AddUserKeepsIdentifiersUnique | inventory_ui.py:766-773 | adding a user keeps user names unique and ids unique |
| Ledger.ConsistentTotals | inventory_ui.py:556-562 | in a row that satisfies the pricing identities, the final total is the total less the discount amount |
| Reports.SummaryOf | inventory_ui.py:1186-1195 | the count is the number of ledger rows, an empty ledger has zero totals, and when every row satisfies the pricing identities the revenue is the sales less the discounts |
| Reports.SummaryReport | inventory_ui.py:1186-1195 | the three totals are the sums of total_sale, discount_price and final_total over the ledger (missing as 0), and the count is the number of rows |
| Reports.SummaryAfterAppend | inventory_ui.py:1190-1195 | one more ledger row adds its three amounts to the totals and one to the count |
| Reports.RevenueIsSalesLessDiscount | inventory_ui.py:1186-1195 | when every row satisfies the pricing identities, the final totals sum to the totals less the discount amounts |
| Reports.LastIndexByName | inventory_ui.py:1246 | the last position holding the name, or -1 when none does |
| Reports.CostPriceMap | inventory_ui.py:1245-1246 | a name is a key iff some item has it, and it maps to the cost price of the LAST item with that name |
| Reports.CostLookup | inventory_ui.py:1275 | a name with an entry in the cost dictionary gets that entry; any other name gets 0 |
| Reports.CostPriceFromStock | inventory_ui.py:1275 | the cost price a ledger row is charged is that of the last stock item bearing the row's item name, or 0 when the row has no name or no item bears it |
| Reports.ProfitLossRowOf | inventory_ui.py:1270-1296 | each row's profit and loss are non-negative, at most one is non-zero, and profit less loss is the final total less cost price times quantity; the cost price is 0 for a missing or unknown name |
| Reports.ProfitLossReport | inventory_ui.py:1266-1296 | the loop produces one row per ledger row, and its total profit and total loss are the sums of the rows' profit and loss |
| Reports.ProfitLossNet | inventory_ui.py:1283-1296 | total profit less total loss equals the ledger's revenue less the cost of the goods sold at current cost prices |
| Customers.DistinctKeys | inventory_ui.py:1124-1129 | the report's keys are pairwise distinct, and a key is present iff some ledger row carries it |
| Customers.DistinctKeysFirstAppearance | inventory_ui.py:1124-1129 | the report's keys are in order of first appearance in the ledger |
| Customers.CountKey | inventory_ui.py:1130 | a key's purchase count never exceeds the number of ledger rows |
| Customers.CountKeyZero | inventory_ui.py:1127-1130 | a key's purchase count is zero iff no ledger row carries the key |
| Customers.CountKeyRekeyed | inventory_ui.py:1127-1130 | when every row of one key is re-keyed to a different key and no other row changes key, the new key's count absorbs the old key's, which drops to 0 |
| Customers.SpentBy | inventory_ui.py:1131 | a key that no row carries has spent 0 |
| Customers.CustomerReport | inventory_ui.py:1124-1131 | the keys are the ledger's distinct keys (in first-appearance order, by DistinctKeysFirstAppearance), and each key's entry is its purchase count and the sum of its rows' final totals |
| Customers.PurchasesCoverLedger | inventory_ui.py:1124-1131 | the purchase counts over all keys add up to the number of ledger rows |
| Customers.SpendingCoversRevenue | inventory_ui.py:1124-1131 | the spending over all keys adds up to the ledger's total revenue |
| Customers.CustomerListOf | inventory_ui.py:874-880 | the list has no duplicates, and a pair is in it iff both parts are non-empty and some row carries it |
| Customers.CustomerList | inventory_ui.py:874-880 | the loop builds exactly that list |
| Customers.CustomerListFirstAppearance | inventory_ui.py:874-880 | the list is in order of first appearance in the ledger |
| Customers.CompleteOnlyMembers | inventory_ui.py:878 | dropping incomplete keys keeps exactly the keys with both parts non-empty |
| Customers.CustomerListIsCompleteReportKeys | inventory_ui.py:874-880 | the customer list is the customer report's keys with the incomplete ones dropped, in the same order |
| Customers.LatestCustomerName | inventory_ui.py:183-189 | the name of the most recent row storing the contact, or "" when no row stores it |
| Stock.Decremented | inventory_ui.py:549 | only the chosen item's quantity changes, by exactly `qty`; the length and every other item stay the same |
| Shop.NewSaleRecord | inventory_ui.py:556-567 | the new row satisfies the pricing identities: total = qty * price, discount amount = pct/100 * total, final = total - discount |
| Shop.SaleStep | inventory_ui.py:509-572 | the sale as written: sold iff the identity, item, quantity and discount checks all pass; an identity rejection carries the identity check's error; the first item with the name loses exactly `qty` units (never going below 0) whenever the checks BEFORE the decrement pass; a sale appends exactly one row that records its inputs, the item's cost price and the pricing identities; otherwise the ledger is unchanged |
| Shop.EarlyRejectionChangesNothing | inventory_ui.py:521-548 | each check before the decrement fails exactly under its condition, and a request rejected by any of them changes neither the stock list nor the ledger |
| Shop.SaleAllOrNothing | inventory_ui.py:549-567 | with a discount in [0, 100], a sale either adds exactly one ledger row or changes neither the stock list nor the ledger |
| Shop.DiscountRejectionKeepsDecrement | inventory_ui.py:549-560 | an out-of-range discount on an otherwise valid sale records nothing but still lowers the stock and the grand total |
| Shop.DiscountRejectionExample | inventory_ui.py:549-560 | ten shirts in stock, three sold at a 150% discount: rejected, seven left, and no ledger row |
| Shop.CheckedSaleStep | inventory_ui.py:549-560 | the discount checked before the decrement: every rejection leaves the stock list and the ledger unchanged; the outcome is always the as-written one, and for in-range discounts so is the whole result |
| Shop.SaleUpdatesSummary | inventory_ui.py:556-567 | a completed sale adds `qty * price`, its discount amount and its final total to the summary's totals and one to the count |
| Shop.SaleLowersGrandTotal | inventory_ui.py:343-347 | once the checks before the decrement pass, the grand total drops by `qty` times the item's list price |
| Shop.SaleKeepsLedgerConsistent | inventory_ui.py:556-567 | sales keep every ledger row satisfying the pricing identities |
| Shop.SaleKeepsStockNonNegative | inventory_ui.py:546-549 | no sale makes a non-negative stock quantity negative |
| Shop.SaleFeedsAutofill | inventory_ui.py:183-189 | after a sale, the autofill for its contact returns its customer's name |
| Shop.Relabel | inventory_ui.py:941-944 | only the name and contact of a row can change; a row of the old customer gets the new pair; any other row is left as it was |
| Shop.RelabelAll | inventory_ui.py:939-944 | every row is relabelled, and the length is unchanged |
| Shop.CorrectionStep | inventory_ui.py:921-946 | rejected iff the new name or contact fails the sale's checks, with the identity check's error, leaving the ledger unchanged; otherwise every row is relabelled, and `updated` holds iff some row stored the old pair |
| Shop.CorrectionKeepsSummary | inventory_ui.py:939-944 | a correction leaves the summary report unchanged |
| Shop.RelabelKey | inventory_ui.py:941-944 | for a complete old pair, relabelling gives a row of the old key the new key and leaves every other row's key unchanged |
| Shop.CorrectionMovesPurchases | inventory_ui.py:921-946 | a valid correction of a listed customer moves all of their purchases to the new identity in the customer report |
| Shop.InventoryApp.Sell | inventory_ui.py:509-572 | the in-place sale, with the checks and updates in the source's order, leaves the outcome, stock list and ledger of SaleStep |
| Shop.InventoryApp.CorrectCustomer | inventory_ui.py:921-946 | the in-place rewriting loop leaves the outcome and ledger of CorrectionStep |
| Shop.InventoryApp.AddUser | inventory_ui.py:762-775 | the in-place append leaves the outcome and user list of AddUserStep |
| ConsoleInventory.EditEntry | inventory.py:54-61 | a blank name, quantity or price keeps the current value; any other answer replaces it |
| ConsoleInventory.RemoveAt | inventory.py:71 | removing position `idx` shortens the list by one, keeps the entries before and after it in order, and takes out exactly that entry (as a multiset) |
| ConsoleInventory.RemoveAppended | inventory.py:45 | deleting the entry just appended restores the list |
| ConsoleInventory.EditEntryIdempotent | inventory.py:54-61 | giving the same edit answers twice has the effect of giving them once |
| ConsoleInventory.BlankEditKeepsEntry | inventory.py:54-61 | an edit whose answers are all blank leaves the entry unchanged |
| ConsoleInventory.ConsoleStock.AddItem | inventory.py:40-47 | the new entry goes at the end; the length grows by one and the earlier entries are unchanged |
| ConsoleInventory.ConsoleStock.EditItem | inventory.py:49-65 | an out-of-range item number changes nothing; otherwise only that entry changes, as EditEntry says |
| ConsoleInventory.ConsoleStock.DeleteItem | inventory.py:67-75 | an out-of-range number changes nothing; otherwise exactly the numbered entry is popped and returned, and the rest keep their order |

## Left out

- Tk widgets, dialogs, message boxes, bills, and PDF and Excel export. The messages become outcome values.
- SQLite and SQL Server access. The stock list, the ledger and the user list are in-memory sequences.
- Persistence quirks:
  - The correction's save writes a JSON file, while the ledger is read back from SQLite, so a correction does not survive a reload.
  - `save_inventory` and `save_users` do nothing.
  - The model keeps the in-memory effect of each operation.
- Parsing of the dialog and prompt fields with `int()`/`float()` and the resulting "invalid input" errors. The model takes already-parsed values.
- Surrounding-whitespace stripping. The inputs are taken as already stripped.
- Character classes:
  - `\d` is modelled as the ASCII digits; Python's `re` also accepts other Unicode digits.
  - Lower-casing is modelled on A-Z only.
- Floating-point rounding. Money is exact `real`.
- Timestamps: the clock reading is an input. Ledger row ids are not modelled.
- Login, `authenticate` and the console main loop.
- The edit, delete and sell choice by tree-row position. The operations take the item or number directly.
- The GUI's own add/edit/delete item dialogs are not part of this model. Only the sale changes GUI stock here.
- Customers.CustomerReport, Reports.SummaryReport: a NULL `final_total` (or another NULL amount) reads as 0. The source would raise on `float(None)` and show no report.
- Customers.CustomerReport: a NULL name or contact reads as "". A row with a NULL name and a row with an empty name therefore share one key, where the source keeps `None` and `""` apart.
- Reports.ProfitLossRowOf: unparseable text in an amount column is not representable; only a missing value (read as 0) is.
- Item cost prices are `real` with no NULL, because the column defaults to 0.
- Shop.CorrectionMovesPurchases holds for the model, where the old contact is the stored text. In the source the old pair is read back from the dialog's tree row (inventory_ui.py:907-909). Tk converts a cell holding only digits to an `int`, so a ten-digit contact comes back as a number. The string comparison at inventory_ui.py:941 then matches no row, and the correction changes nothing. This depends on Tk's value conversion, which is not part of this model; it was not executed.
- The profit/loss report prices goods at the current cost of the item's name, not at the snapshot stored in the row. This is modelled as written.

## Findings

| source | as written | input that shows it | evidently intended | confidence | as-written member | corrected member |
|---|---|---|---|---|---|---|
| inventory_ui.py:549-560 | the stock decrement is committed before the discount percentage is checked, and the rejection returns without restoring it | ten units in stock; sell three with a 150% discount: the sale is rejected and no ledger row is written, but seven units remain | the discount is validated before any state changes, so a rejected sale changes nothing | high, not executed | Shop.DiscountRejectionExample | Shop.CheckedSaleStep |
