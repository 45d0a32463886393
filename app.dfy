/**
 * The session controller as the object the desktop application keeps: its fields are
 * updated in place by the scan handler and by the Save and Cancel buttons, and the
 * pending batch stands for the rows of the on-screen table.  Each method is proved to
 * have exactly the effect of the matching `Session` or `Batch` function.
 */
module App {
  import opened Wrappers
  import opened Store
  import opened Batch
  import opened Session

  class InventoryApp {
    const database: InventoryDatabase
    var currentUser: Option<string>
    var recordId: nat
    /** The selected activity mode. */
    var activity: Activity
    /** The rows of the table, in display order. */
    var batch: seq<Row>

    /** The store and the controller as one value. */
    function Model(): State
      reads this, database
    {
      State(database.Content(), SessionState(currentUser, activity, batch, recordId))
    }

    constructor (database: InventoryDatabase)
      ensures this.database == database
      ensures Model() == Init(database.Content())
    {
      this.database := database;
      currentUser := None;
      recordId := 1;
      activity := TakeProduct;
      batch := [];
    }

    /** The Cancel button, and the reserved code "3": the table is emptied, nothing is saved. */
    method CancelAction()
      modifies this
      ensures Model() == Cancel(old(Model()))
    {
      batch := [];
    }

    /** One scanned code, submitted with the time it was read; returns the error shown, if any. */
    method SubmitAction(barcode: string, date: string) returns (error: Option<ScanError>)
      modifies this, database
      ensures Model() == Scan(old(Model()), barcode, date).next
      ensures error == Scan(old(Model()), barcode, date).error
    {
      error := None;
      if barcode != "" {
        if barcode == TAKE_CODE {
          activity := TakeProduct;
        } else if barcode == RETURN_CODE {
          activity := ReturnProduct;
        } else if barcode == CANCEL_CODE {
          CancelAction();
        } else {
          var user := FindUserByCode(database.users, barcode);
          if user.Some? {
            if currentUser == Some(user.value.code) {
              SaveData();
              currentUser := None;
              return;
            } else if currentUser.Some? {
              SaveData();
            }
            currentUser := Some(user.value.code);
          } else {
            if currentUser.None? {
              error := Some(NoUser);
              return;
            }
            var productId := barcode;
            var quantity := if activity == TakeProduct then -1 else 1;
            var itemId := FindItemByProductId(batch, productId);
            var productRow := FindProductByCode(database.products, productId);
            if productRow.None? {
              error := Some(UnknownProduct);
              return;
            }
            var currentQuantity := database.products[productRow.value].qty;
            var quantityInTable := if itemId.Some? then batch[itemId.value].delta else 0;
            if currentQuantity + quantityInTable + quantity < 0 {
              error := Some(Insufficient);
              return;
            }
            if itemId.Some? {
              UpdateTableRecord(itemId.value, currentUser.value, productId, quantity, date);
            } else {
              error := InsertTableRecord(currentUser.value, productId, quantity, date);
            }
          }
        }
      }
    }

    /** Adds `quantity` to the row at `index`, refreshing its user, label and date; a row reaching zero is deleted. */
    method UpdateTableRecord(index: nat, user: string, product: string, quantity: int, date: string)
      requires index < |batch|
      modifies this
      ensures batch == UpdatedBatch(old(batch), index, user, product, quantity, date)
      ensures currentUser == old(currentUser) && recordId == old(recordId) && activity == old(activity)
    {
      var updatedQuantity := batch[index].delta + quantity;
      var activityLabel := if updatedQuantity < 0 then TakeProduct else ReturnProduct;
      batch := batch[index := Row(batch[index].id, user, product, updatedQuantity, activityLabel, date)];
      if updatedQuantity == 0 {
        batch := batch[..index] + batch[index + 1..];
      }
    }

    /**
     * Appends a row with the next id for a product of the store, or reports the product
     * unknown and changes nothing.
     */
    method InsertTableRecord(user: string, product: string, quantity: int, date: string) returns (error: Option<ScanError>)
      modifies this
      ensures var found := FindProductByCode(database.products, product);
              if found.Some? then
                error.None? && recordId == old(recordId) + 1 &&
                batch == InsertedBatch(old(batch), old(recordId), user, product, quantity, database.products[found.value].qty, date)
              else
                error == Some(UnknownProduct) && recordId == old(recordId) && batch == old(batch)
      ensures currentUser == old(currentUser) && activity == old(activity)
    {
      var productRow := FindProductByCode(database.products, product);
      if productRow.Some? {
        var currentQuantity := database.products[productRow.value].qty;
        var updatedQuantity := currentQuantity + quantity;
        var itemId := recordId;
        var actualQuantity := if updatedQuantity >= 0 then quantity else -quantity;
        var activityLabel := if quantity < 0 then TakeProduct else ReturnProduct;
        batch := batch + [Row(itemId, user, product, actualQuantity, activityLabel, date)];
        recordId := recordId + 1;
        error := None;
      } else {
        error := Some(UnknownProduct);
      }
    }

    /**
     * The Save button: one ledger entry per row, in table order; then each row's delta
     * added to its product's stored quantity; then the table is emptied.
     */
    method SaveData()
      modifies this, database
      ensures Model() == Save(old(Model()))
    {
      SaveActivities(batch);
      SaveQuantities(batch);
      batch := [];
    }

    /** The first pass of a save: one ledger entry per row, in order. */
    method SaveActivities(rows: seq<Row>)
      modifies database
      ensures database.activities == old(database.activities) + Entries(rows)
      ensures database.users == old(database.users) && database.products == old(database.products)
    {
      for i := 0 to |rows|
        invariant database.users == old(database.users) && database.products == old(database.products)
        invariant database.activities == old(database.activities) + Entries(rows[..i])
      {
        var row := rows[i];
        database.AddActivity(row.user, row.product, row.delta, row.activity, row.date);
        EntriesPrefix(rows, i);
      }
      assert rows[..|rows|] == rows;
    }

    /** The second pass of a save: each row's delta added to its product's stored quantity, in order. */
    method SaveQuantities(rows: seq<Row>)
      modifies database
      ensures database.products == ApplyDeltas(old(database.products), rows)
      ensures database.users == old(database.users) && database.activities == old(database.activities)
    {
      for i := 0 to |rows|
        invariant database.users == old(database.users) && database.activities == old(database.activities)
        invariant database.products == ApplyDeltas(old(database.products), rows[..i])
      {
        database.AddToProductQuantity(rows[i].product, rows[i].delta);
        ApplyDeltasPrefix(old(database.products), rows, i);
      }
      assert rows[..|rows|] == rows;
    }
  }
}
