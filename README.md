# Inventory scan session, modelled in Dafny

This project models the core of a single-operator desktop inventory tracker (`main.py`).
An operator scans a user code to open a session. Each product scan then takes (−1) or
returns (+1) one unit, depending on the activity mode. Scans accumulate in a pending table
with one row per product. Saving writes one ledger entry per row to the Activities sheet and
adds each row's delta to the product's stored quantity.

Modules:

- `Wrappers` (`wrappers.dfy`): `Option`.
- `Store` (`store.dfy`): users, products and ledger entries; the first-match lookups of
  `InventoryDatabase`; the `InventoryDatabase` class, whose sheets are sequences. The
  header row of each sheet is not part of its sequence, so lookups start at the first data
  row, as `iter_rows(min_row=2)` does.
- `Batch` (`batch.dfy`): the pending table's rows, the two edits a product scan makes
  (update-or-delete, append), the ledger entries and quantity changes a commit makes, and
  `PendingDelta`, the sum of the deltas pending for a product. Lemmas relate these.
- `Session` (`session.dfy`): the controller as a pure specification. `Scan` is one
  submitted code, `Save` the Save button, `Cancel` the Cancel button. `Inv` is the session
  invariant. The lemmas state the properties of each step, and `Run` covers any sequence of
  events.
- `App` (`app.dfy`): the `InventoryApp` class. Its fields (`currentUser`, `recordId`,
  `activity`, `batch`) are updated in place. Each method is proved to have exactly the
  effect given by the matching `Session` or `Batch` function. `SaveData` keeps the source's two
  passes: ledger appends first, then quantity overwrites.

Behaviour of the code worth knowing (the model follows the code):

- Commit writes one ledger entry per coalesced row, holding the row's net delta. It does
  not write one entry per scan (main.py:250-253). Taking "P1" twice gives one entry of −2
  (`TakeTwiceThenCommit`).
- `insert_table_record` negates the quantity when the stored quantity plus the scan would
  be negative (main.py:238). That branch is modelled: the contract of
  `InsertedBatch` states the negation and `InventoryApp.InsertTableRecord` performs it. `AcceptedProductScan` proves that an accepted
  scan always appends exactly the scanned unit, because the check at main.py:196 has
  already rejected the negative case.
- The stock check also covers Return scans. If a product's stored quantity is below −1, a
  Return scan is refused as well (main.py:196).
- Updating a row overwrites its user with the active user and refreshes the date
  (main.py:219). Under `Inv` the two users are always the same.
- A product missing at commit time is skipped (main.py:265). `ApplyRow` models this.
  Under `Inv` it cannot happen.

## Model

| member | source | states |
|---|---|---|
| `Store.FirstIndex` | main.py:39-49 | the first-match search both lookups share: the index returned holds the code and no earlier one does; `None` exactly when no element holds it |
| `Store.FindUserByCode` | main.py:39-43 | returns a user with the scanned code that is the first such row; `None` exactly when no user has that code |
| `Store.FindProductByCode` | main.py:45-49 | returns the position (row handle) of the first product with the scanned code; `None` exactly when there is none |
| `Store.AddToQuantity` | main.py:264-268 | only the first product row with the code gains the delta; length, codes and names are kept; with no such row the table is unchanged |
| `Store.InventoryDatabase.constructor` | main.py:23-28 | the opened workbook holds exactly the given users, products and ledger |
| `Store.InventoryDatabase.AddActivity` | main.py:58-60 | appends exactly one ledger entry with the given fields; users and products unchanged |
| `Store.InventoryDatabase.SetQuantity` | main.py:268 | overwrites only the quantity cell of one product row; every other cell and sheet unchanged |
| `Store.InventoryDatabase.AddToProductQuantity` | main.py:264-268 | the product table becomes `AddToQuantity` of the old one; users and ledger unchanged |
| `Batch.FindItemByProductId` | main.py:277-281 | returns the position of the first pending row for the product; `None` exactly when no row is for it |
| `Batch.UpdatedBatch` | main.py:214-224 | adding q to row `index`: when the new delta is 0 the row is removed and the others keep their order; otherwise only that row changes, keeping its id and taking the new delta, the label of the delta's sign, the user and the date |
| `Batch.InsertedBatch` | main.py:226-242 | appends one row after the unchanged batch, with the given id, user, product and date and a label that is Take exactly when q < 0; the row holds q when the stored quantity plus q is not negative, and −q when it is |
| `Batch.LabelFor` | main.py:220 | definition: Take when the delta is negative, Return otherwise; `Session.RowsWellFormed` requires every row to carry this label and `Session.RunInv` keeps it |
| `Batch.ToEntry` | main.py:252-253 | definition: the ledger entry for a row carries its user, product, delta, label and date; used by `Batch.Entries` and `Session.CommitLedger` |
| `Batch.Entries` | main.py:250-253 | one ledger entry per row, same length, entry i carrying row i's user, product, delta, label and date |
| `Batch.ApplyRow` | main.py:264-268 | definition: one row's quantity step is `Store.AddToQuantity` with the row's product and delta, skipping a missing product; its effect is stated by `Store.AddToQuantity` and `Batch.ApplyDeltasEffect` |
| `Batch.ApplyDeltas` | main.py:259-268 | the whole quantity pass changes no product code or name and keeps the table's length |
| `Batch.ApplyDeltasPrefix` | main.py:259-268 | the quantity pass after i+1 rows is one more row step after the pass for i rows |
| `Batch.ApplyDeltasEffect` | main.py:259-268 | after the quantity pass, the first product row for each code has gained everything pending for that code (the sum over all rows for it); every other row keeps its quantity |
| `Batch.PendingDeltaAppend` | main.py:194 | what is pending over two concatenated batches is the sum of what is pending in each |
| `Batch.PendingDeltaAbsent` | main.py:194 | a product with no row has nothing pending |
| `Batch.PendingDeltaOnlyRow` | main.py:194 | when exactly one row is for a product, what is pending for it is that row's delta |
| `Batch.PendingDeltaIsRowDelta` | main.py:194 | in a batch with one row per product, the table's quantity for a product (its row's delta, 0 without a row) equals the sum of all pending deltas for it |
| `Batch.PendingDelta` | main.py:194 | definition: the pending sum for a product, the sum of the deltas of all rows for it; `Batch.PendingDeltaIsRowDelta` ties it to the table value read at main.py:194 |
| `Batch.UpdatedBatchPending` | main.py:214-224 | updating a product's row by q adds exactly q to that product's pending sum and leaves every other product's sum alone, deletion included |
| `Batch.InsertedBatchPending` | main.py:237-241 | appending a row adds its delta to that product's pending sum and leaves every other product's sum alone |
| `Batch.UpdatedBatchIds` | main.py:214-224 | updating or deleting a row brings in no id the batch did not already hold |
| `Batch.InsertedBatchIds` | main.py:237-242 | appending keeps every old row's id and gives the new row the given id |
| `Session.Init` | main.py:69-70 | definition: start-up state with no user, Take mode, empty batch and counter 1; `Session.InitInv` proves it satisfies the invariant |
| `Session.Commit` | main.py:248-271 | definition: the ledger gains `Entries` of the batch and the products become `ApplyDeltas`; its effects are stated by `Session.CommitLedger`, `Session.CommitProducts` and `Session.CommitEmpty` |
| `Session.Save` | main.py:248-275 | definition: commit the batch, then empty it, keeping user, mode and counter; `Session.SaveInv` and `Session.SaveNonNegative` are about it |
| `Session.Cancel` | main.py:132-135 | definition: empty the batch, nothing else; `Session.CancelInv` and `Session.ReservedInput` are about it |
| `Session.Unit` | main.py:181 | definition: a scan contributes −1 in Take mode and +1 in Return mode |
| `Session.IsProductScan` | main.py:147-171 | definition: the code is not empty, not "1", "2" or "3", and names no user, so it is handled as a product code |
| `Session.Scan` | main.py:143-212 | definition: one submitted code, dispatched in source order: empty, "1", "2", "3", known user, then product; its properties are stated by `Session.ReservedInput`, `Session.UserScan`, `Session.ScanErrorCases`, `Session.AcceptedProductScan`, `Session.ScanInv` and `Session.ScanIds` |
| `Session.ScanUser` | main.py:155-168 | definition: the user-scan branch; `Session.UserScan` states its effect |
| `Session.ScanProduct` | main.py:171-206 | definition: the product-scan branch with its three refusals and its update or append; `Session.ScanProductInv` and `Session.ScanProductIds` are about it |
| `Session.Step` | main.py:97-111 | definition: one event, a submitted code (the Enter key or the submit button), a press of Save or a press of Cancel |
| `Session.Run` | main.py:97-111 | definition: the events applied one after another, from the first |
| `Session.Covered` | main.py:193-199 | definition: the row's product exists and its stored quantity plus the row's delta is not negative |
| `Session.RowsWellFormed` | main.py:186-242 | definition: one row per product, no zero delta, each label matching its delta's sign, ids increasing along the table and below the counter, and every row `Covered` |
| `Session.OwnedBy` | main.py:203-206 | definition: every row carries the given user code |
| `Session.Inv` | main.py:155-206 | definition: the session invariant: the rows are `RowsWellFormed`; with no active user the table is empty, otherwise every row is `OwnedBy` the active user |
| `Session.InitInv` | main.py:69-70 | the start-up session (no user, empty table, counter 1) satisfies the invariant |
| `Session.RemoveKeepsRows` | main.py:223-224 | deleting one row keeps the rows well formed |
| `Session.ReplaceKeepsRows` | main.py:219-220 | replacing a row by a well-formed row for the same product with the same id keeps the rows well formed |
| `Session.UpdatedBatchOwned` | main.py:214-224 | an update made for the active user leaves every row that user's |
| `Session.UpdateKeepsRows` | main.py:196-203 | an accepted update or delete keeps one row per product, nonzero deltas, labels that match the delta's sign, stored qty + delta ≥ 0 and increasing ids below the counter |
| `Session.InsertKeepsRows` | main.py:196-206 | an accepted append keeps the same well-formedness, with the counter moved on by one |
| `Session.InsertedBatchOwned` | main.py:237-241 | a row appended for the active user leaves every row that user's |
| `Session.SaveInv` | main.py:248-275 | saving keeps the session invariant |
| `Session.CancelInv` | main.py:132-135 | cancelling keeps the session invariant |
| `Session.ScanProductInv` | main.py:171-206 | every product scan, accepted or refused, keeps the invariant |
| `Session.ScanInv` | main.py:143-206 | every submitted code keeps the invariant: the row properties above, all rows belong to the active user, and no active user means an empty batch |
| `Session.StepInv` | main.py:97-111 | a scan, a Save press or a Cancel press keeps the invariant |
| `Session.RunInv` | main.py:97-111 | any sequence of scans and presses keeps the invariant |
| `Session.RejectedScanChangesNothing` | main.py:172-199 | a refused scan leaves store, batch, user, mode and counter unchanged |
| `Session.ScanErrorCases` | main.py:172-199 | under the invariant: NoUser exactly for a product scan with no active user; UnknownProduct exactly when the product is missing; Insufficient exactly when stored qty + pending sum + unit < 0 |
| `Session.AcceptedProductScan` | main.py:178-242 | under the invariant, an accepted product scan adds −1 (Take) or +1 (Return) to that product's pending sum and nothing to any other; the product keeps a row exactly when its sum is nonzero; a row is appended only when none existed, with the next id and exactly the unit; otherwise the counter is kept and the batch is `UpdatedBatch` of the old one, so the row keeps its place and id and every other row is untouched; store, user and mode unchanged |
| `Session.UserScan` | main.py:155-168 | under the invariant, a user scan commits whenever a user is active; the active user's own code leaves no user, any other code activates that user; mode and counter unchanged, batch empty |
| `Session.ReservedInput` | main.py:147-153 | empty input changes nothing; "1" and "2" only set the mode; "3" only empties the batch; these hold whatever the users table contains |
| `Session.CommitLedger` | main.py:250-253 | commit appends one entry per row in batch order, each holding the row's user, product, net delta, label and date; earlier entries and users unchanged |
| `Session.CommitProducts` | main.py:259-268 | commit adds each code's pending sum to the first product row with that code; all other quantities, codes and names unchanged |
| `Session.CommitEmpty` | main.py:248-275 | committing an empty batch leaves the store unchanged |
| `Session.SaveNonNegative` | main.py:193-199 | under the invariant a save never leaves a product it changed with a negative quantity |
| `Session.ScanProductIds` | main.py:237-242 | for a product scan from any state: the counter moves by 0 or 1 and every row keeps an old id or takes the counter's old value, which is then used up |
| `Session.ScanIds` | main.py:237-242 | from any state, a scan moves the counter by 0 or 1; each row afterwards keeps an id already in the batch or carries the counter's old value, which is then used up |
| `Session.RunCounterMonotone` | main.py:70 | from any state and over any events, including saves and cancels, the counter never decreases |
| `Session.StepIds` | main.py:237-242 | for any event: the counter moves by 0 or 1, and every row keeps an old id or takes the counter's old value, which is then used up |
| `Session.RunIds` | main.py:70-242 | over any events, saves and cancels included, every row at the end holds an id of a row present at the start or an id the counter handed out during the run (at least the starting counter, below the final one) |
| `Session.TwoTakes` | main.py:155-240 | with at least 2 in stock, user in and two takes give exactly: user U1 active, Take mode, one row (id 1, −2, Take, the second take's date), counter 2, store unchanged |
| `Session.TakeTwiceThenCommit` | main.py:155-268 | with 5 in stock, user in, two takes and user out give one row of −2, one ledger entry of −2, 3 in stock and no active user |
| `Session.ThirdTakeRefused` | main.py:193-199 | with 2 in stock and −2 pending, a third take is refused with Insufficient and changes nothing |
| `App.InventoryApp.constructor` | main.py:64-70 | a new controller has no user, Take mode, an empty table and counter 1 |
| `App.InventoryApp.CancelAction` | main.py:132-135 | the table is emptied; store, user, mode and counter unchanged |
| `App.InventoryApp.SubmitAction` | main.py:143-212 | the new state and the error reported are exactly those of `Session.Scan` on the old state |
| `App.InventoryApp.UpdateTableRecord` | main.py:214-224 | the table becomes `UpdatedBatch` of the old table; user, mode and counter unchanged |
| `App.InventoryApp.InsertTableRecord` | main.py:226-246 | a known product gets `InsertedBatch` with the current id and the counter moves on; an unknown one reports UnknownProduct and changes nothing |
| `App.InventoryApp.SaveActivities` | main.py:250-253 | the loop appends `Entries` of the rows to the ledger, in row order; users and products unchanged |
| `App.InventoryApp.SaveQuantities` | main.py:259-268 | the loop turns the product table into `ApplyDeltas` of the old one over the rows, in row order; users and ledger unchanged |
| `App.InventoryApp.SaveData` | main.py:248-275 | the new state is exactly `Session.Save` of the old one: ledger entries appended, quantities updated, table emptied, user and mode kept |

## Left out

- Tk user interface: widget creation, layout, label texts, focus, the Enter-key binding
  and clearing of the input field (main.py:74-130, 284-290). The error label is the
  `ScanError` result (`NoUser`, `UnknownProduct`, `Insufficient`), not the message text.
- The radio buttons that select the mode directly (main.py:80-84). They are user
  interface; scanning "1" or "2" has the same effect on the mode.
- openpyxl file I/O. Loading the workbook and creating a blank one when the file is missing
  (main.py:23-37) become the `InventoryDatabase` constructor; empty sequences stand for the
  fresh workbook. Every `workbook.save` (main.py:60, 256, 271) is a no-op on the in-memory
  store. Crashes between saves are not modelled.
- `datetime.now()` (main.py:183): the timestamp is a `date` parameter of the scan and is
  treated as an opaque string.
- The debug `print` (main.py:195).
- `int(...)` parsing of cells and table values (main.py:193-194, 215, 233, 253, 266-267).
  Quantities are `int`, and a non-numeric cell's crash is not modelled.
- `str(...)` on cell values (main.py:41, 47): codes are held as the strings they compare
  as. A blank code cell, which Python would compare as "None", is not modelled.
- Tk's coercion of table values, which may affect the equality at main.py:279. Row fields
  are typed values. Row ids are numbers; the source uses `str(record_id)`.
- `InventoryDatabase.update_current_user` (main.py:51-56): nothing calls it, and the
  attribute it sets is never read.
