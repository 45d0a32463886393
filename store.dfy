/**
 * The persisted store of the inventory tracker: three tables (users, products and
 * the activity ledger) kept in memory, the first-match lookups by code, and the
 * two mutations the session controller performs on them.  The header row of each
 * table is not part of these sequences: every lookup starts at the first data row.
 */
module Store {
  import opened Wrappers

  /** The two activity labels; they are also the two values of the activity mode. */
  datatype Activity = TakeProduct | ReturnProduct

  /** A row of the Users table: user code and user name. */
  datatype User = User(code: string, name: string)

  /** A row of the Products table: product code, product name and stored quantity. */
  datatype Product = Product(code: string, name: string, qty: int)

  /** A row of the Activities table (the ledger). */
  datatype LedgerEntry = LedgerEntry(user: string, product: string, qty: int, activity: Activity, date: string)

  /** The three tables together, as plain values. */
  datatype Tables = Tables(users: seq<User>, products: seq<Product>, activities: seq<LedgerEntry>)

  /** The index of the first element of `codes` equal to `code`, if there is one. */
  function FirstIndex(codes: seq<string>, code: string): (r: Option<nat>)
    ensures r.Some? ==> r.value < |codes| && codes[r.value] == code
    ensures r.Some? ==> forall j :: 0 <= j < r.value ==> codes[j] != code
    ensures r.None? <==> forall j :: 0 <= j < |codes| ==> codes[j] != code
  {
    if codes == [] then None
    else if codes[0] == code then Some(0)
    else match FirstIndex(codes[1..], code)
      case None => None
      case Some(k) => Some(k + 1)
  }

  /** The user codes, in table order. */
  function UserCodes(users: seq<User>): (r: seq<string>)
    ensures |r| == |users| && forall i :: 0 <= i < |users| ==> r[i] == users[i].code
  {
    seq(|users|, i requires 0 <= i < |users| => users[i].code)
  }

  /** The product codes, in table order. */
  function ProductCodes(products: seq<Product>): (r: seq<string>)
    ensures |r| == |products| && forall i :: 0 <= i < |products| ==> r[i] == products[i].code
  {
    seq(|products|, i requires 0 <= i < |products| => products[i].code)
  }

  /** The first user whose code equals the scanned string, if any. */
  function FindUserByCode(users: seq<User>, code: string): (r: Option<User>)
    ensures r.Some? ==> r.value.code == code
    ensures r.Some? ==> exists i :: 0 <= i < |users| && users[i] == r.value &&
                                   forall j :: 0 <= j < i ==> users[j].code != code
    ensures r.None? <==> forall j :: 0 <= j < |users| ==> users[j].code != code
  {
    match FirstIndex(UserCodes(users), code)
    case None => None
    case Some(i) => Some(users[i])
  }

  /**
   * The position (the row handle) of the first product whose code equals the
   * scanned string, if any.
   */
  function FindProductByCode(products: seq<Product>, code: string): (r: Option<nat>)
    ensures r.Some? ==> r.value < |products| && products[r.value].code == code
    ensures r.Some? ==> forall j :: 0 <= j < r.value ==> products[j].code != code
    ensures r.None? <==> forall j :: 0 <= j < |products| ==> products[j].code != code
  {
    FirstIndex(ProductCodes(products), code)
  }

  /**
   * The product table after adding `delta` to the quantity of the first product with code
   * `code`; unchanged when there is no such product.
   */
  function AddToQuantity(products: seq<Product>, code: string, delta: int): (r: seq<Product>)
    ensures |r| == |products|
    ensures forall i :: 0 <= i < |products| ==> r[i].code == products[i].code && r[i].name == products[i].name
    ensures forall i :: 0 <= i < |products| ==>
              r[i].qty == products[i].qty + (if FindProductByCode(products, code) == Some(i) then delta else 0)
  {
    match FindProductByCode(products, code)
    case None => products
    case Some(k) => products[k := products[k].(qty := products[k].qty + delta)]
  }

  /** Two product tables with the same codes, row by row, answer every lookup alike. */
  lemma SameCodesSameLookup(a: seq<Product>, b: seq<Product>, code: string)
    requires |a| == |b| && forall i :: 0 <= i < |a| ==> a[i].code == b[i].code
    ensures FindProductByCode(a, code) == FindProductByCode(b, code)
  {
    assert ProductCodes(a) == ProductCodes(b);
  }

  /** The workbook, with its three sheets held as sequences. */
  class InventoryDatabase {
    var users: seq<User>
    var products: seq<Product>
    var activities: seq<LedgerEntry>

    /** The tables as one value. */
    function Content(): Tables
      reads this
    {
      Tables(users, products, activities)
    }

    /** Opens a workbook holding these data rows (empty sequences: a freshly created one). */
    constructor (users: seq<User>, products: seq<Product>, activities: seq<LedgerEntry>)
      ensures Content() == Tables(users, products, activities)
    {
      this.users := users;
      this.products := products;
      this.activities := activities;
    }

    /** Appends one entry to the ledger; the other tables are left alone. */
    method AddActivity(user: string, product: string, qty: int, activity: Activity, date: string)
      modifies this
      ensures activities == old(activities) + [LedgerEntry(user, product, qty, activity, date)]
      ensures users == old(users) && products == old(products)
    {
      activities := activities + [LedgerEntry(user, product, qty, activity, date)];
    }

    /** Overwrites the quantity cell of the product row at `index`. */
    method SetQuantity(index: nat, qty: int)
      requires index < |products|
      modifies this
      ensures products == old(products)[index := old(products)[index].(qty := qty)]
      ensures users == old(users) && activities == old(activities)
    {
      products := products[index := products[index].(qty := qty)];
    }

    /** Finds the first product with code `code` and, if there is one, adds `delta` to its stored quantity. */
    method AddToProductQuantity(code: string, delta: int)
      modifies this
      ensures products == AddToQuantity(old(products), code, delta)
      ensures users == old(users) && activities == old(activities)
    {
      var productRow := FindProductByCode(products, code);
      if productRow.Some? {
        var currentQuantity := products[productRow.value].qty;
        SetQuantity(productRow.value, currentQuantity + delta);
      }
    }
  }
}
