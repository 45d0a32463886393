/**
 * The pending batch: the rows of the on-screen table, listed in their display order,
 * the edits a product scan makes to them, and what committing them writes to the
 * store (one ledger entry per row, one quantity change per row).
 */
module Batch {
  import opened Wrappers
  import opened Store

  /** One table row: row id, user code, product code, net delta, activity label, date. */
  datatype Row = Row(id: nat, user: string, product: string, delta: int, activity: Activity, date: string)

  /** The label a row with this net delta carries. */
  function LabelFor(delta: int): Activity
  {
    if delta < 0 then TakeProduct else ReturnProduct
  }

  /** The product codes of the rows, in batch order. */
  function RowProducts(batch: seq<Row>): (r: seq<string>)
    ensures |r| == |batch| && forall i :: 0 <= i < |batch| ==> r[i] == batch[i].product
  {
    seq(|batch|, i requires 0 <= i < |batch| => batch[i].product)
  }

  /** The position of the first row for `product`, if any. */
  function FindItemByProductId(batch: seq<Row>, product: string): (r: Option<nat>)
    ensures r.Some? ==> r.value < |batch| && batch[r.value].product == product
    ensures r.Some? ==> forall j :: 0 <= j < r.value ==> batch[j].product != product
    ensures r.None? <==> forall j :: 0 <= j < |batch| ==> batch[j].product != product
  {
    FirstIndex(RowProducts(batch), product)
  }

  /** No two rows are for the same product. */
  predicate DistinctProducts(batch: seq<Row>)
  {
    forall i, j :: 0 <= i < j < |batch| ==> batch[i].product != batch[j].product
  }

  /**
   * The batch after adding `q` to the row at `index`: the row takes the new user,
   * product, date and the label of its new delta, and it is deleted when the delta
   * reaches zero.
   */
  function UpdatedBatch(batch: seq<Row>, index: nat, user: string, product: string, q: int, date: string): (r: seq<Row>)
    requires index < |batch|
    ensures var d := batch[index].delta + q;
            if d == 0 then r == batch[..index] + batch[index + 1..]
            else |r| == |batch| && r[index] == Row(batch[index].id, user, product, d, LabelFor(d), date) &&
                 forall j :: 0 <= j < |batch| && j != index ==> r[j] == batch[j]
  {
    var d := batch[index].delta + q;
    var updated := batch[index := Row(batch[index].id, user, product, d, LabelFor(d), date)];
    if d == 0 then updated[..index] + updated[index + 1..] else updated
  }

  /**
   * The batch after appending a fresh row with id `id` for a scan of `q`, where the
   * product's stored quantity is `stored`: the row holds `q`, negated when the stored
   * quantity plus `q` is negative, and the label follows the sign of `q`.
   */
  function InsertedBatch(batch: seq<Row>, id: nat, user: string, product: string, q: int, stored: int, date: string): (r: seq<Row>)
    ensures |r| == |batch| + 1 && r[..|batch|] == batch
    ensures r[|batch|].id == id && r[|batch|].user == user && r[|batch|].product == product
    ensures r[|batch|].date == date && (r[|batch|].activity == TakeProduct <==> q < 0)
    ensures stored + q >= 0 ==> r[|batch|].delta == q
    ensures stored + q < 0 ==> r[|batch|].delta == -q
  {
    var actual := if stored + q >= 0 then q else -q;
    batch + [Row(id, user, product, actual, if q < 0 then TakeProduct else ReturnProduct, date)]
  }

  /** The ledger entry committing a row writes. */
  function ToEntry(row: Row): LedgerEntry
  {
    LedgerEntry(row.user, row.product, row.delta, row.activity, row.date)
  }

  /** The ledger entries committing `batch` writes, in batch order. */
  function Entries(batch: seq<Row>): (r: seq<LedgerEntry>)
    ensures |r| == |batch|
    ensures forall i :: 0 <= i < |batch| ==> r[i] == ToEntry(batch[i])
  {
    if batch == [] then [] else Entries(batch[..|batch| - 1]) + [ToEntry(batch[|batch| - 1])]
  }

  /** The entries for one more row are one more entry. */
  lemma EntriesPrefix(rows: seq<Row>, i: nat)
    requires i < |rows|
    ensures Entries(rows[..i + 1]) == Entries(rows[..i]) + [ToEntry(rows[i])]
  {
    assert rows[..i + 1][..i] == rows[..i];
  }

  /** The product table after the commit step for one row: the first product with the row's code gains its delta. */
  function ApplyRow(products: seq<Product>, row: Row): seq<Product>
  {
    AddToQuantity(products, row.product, row.delta)
  }

  /** The product table after the commit step for every row, taken in batch order. */
  function ApplyDeltas(products: seq<Product>, batch: seq<Row>): (r: seq<Product>)
    ensures |r| == |products| && forall i :: 0 <= i < |products| ==> r[i].code == products[i].code && r[i].name == products[i].name
  {
    if batch == [] then products else ApplyRow(ApplyDeltas(products, batch[..|batch| - 1]), batch[|batch| - 1])
  }

  /** Committing one more row is one more `ApplyRow` step. */
  lemma ApplyDeltasPrefix(products: seq<Product>, rows: seq<Row>, i: nat)
    requires i < |rows|
    ensures ApplyDeltas(products, rows[..i + 1]) == ApplyRow(ApplyDeltas(products, rows[..i]), rows[i])
  {
    assert rows[..i + 1][..i] == rows[..i];
  }

  /** The sum of the deltas of all rows for `product`: the independent account of what is pending for it. */
  function PendingDelta(batch: seq<Row>, product: string): int
  {
    if batch == [] then 0
    else PendingDelta(batch[..|batch| - 1], product) + (if batch[|batch| - 1].product == product then batch[|batch| - 1].delta else 0)
  }

  /** What is pending over two batches one after the other is the sum of what is pending in each. */
  lemma {:induction false} PendingDeltaAppend(a: seq<Row>, b: seq<Row>, product: string)
    ensures PendingDelta(a + b, product) == PendingDelta(a, product) + PendingDelta(b, product)
  {
    if b == [] {
      assert a + b == a;
    } else {
      assert (a + b)[..|a + b| - 1] == a + b[..|b| - 1];
      PendingDeltaAppend(a, b[..|b| - 1], product);
    }
  }

  /** A one-row batch has that row's delta pending for its product and nothing for any other. */
  lemma PendingDeltaSingle(row: Row, product: string)
    ensures PendingDelta([row], product) == if row.product == product then row.delta else 0
  {
    assert [row][..0] == [];
  }

  /** A product with no row has nothing pending. */
  lemma {:induction false} PendingDeltaAbsent(batch: seq<Row>, product: string)
    requires forall j :: 0 <= j < |batch| ==> batch[j].product != product
    ensures PendingDelta(batch, product) == 0
  {
    if batch != [] {
      PendingDeltaAbsent(batch[..|batch| - 1], product);
    }
  }

  /** When exactly one row is for `product`, what is pending for it is that row's delta. */
  lemma {:induction false} PendingDeltaOnlyRow(batch: seq<Row>, i: nat, product: string)
    requires i < |batch| && batch[i].product == product
    requires forall j :: 0 <= j < |batch| && j != i ==> batch[j].product != product
    ensures PendingDelta(batch, product) == batch[i].delta
  {
    var init := batch[..|batch| - 1];
    if i == |batch| - 1 {
      PendingDeltaAbsent(init, product);
    } else {
      PendingDeltaOnlyRow(init, i, product);
    }
  }

  /** In a batch with one row per product, what is pending for a product is that row's delta. */
  lemma PendingDeltaIsRowDelta(batch: seq<Row>, product: string)
    requires DistinctProducts(batch)
    ensures FindItemByProductId(batch, product).None? ==> PendingDelta(batch, product) == 0
    ensures FindItemByProductId(batch, product).Some? ==>
              PendingDelta(batch, product) == batch[FindItemByProductId(batch, product).value].delta
  {
    var found := FindItemByProductId(batch, product);
    if found.None? {
      PendingDeltaAbsent(batch, product);
    } else {
      PendingDeltaOnlyRow(batch, found.value, product);
    }
  }

  /**
   * Committing a batch changes no code or name; the first product row for each code
   * gains everything pending for that code, and every other row keeps its quantity.
   */
  lemma {:induction false} ApplyDeltasEffect(products: seq<Product>, batch: seq<Row>, k: nat)
    requires k < |products|
    ensures |ApplyDeltas(products, batch)| == |products|
    ensures ApplyDeltas(products, batch)[k] ==
            products[k].(qty := products[k].qty +
                          if FindProductByCode(products, products[k].code) == Some(k)
                          then PendingDelta(batch, products[k].code) else 0)
  {
    if batch != [] {
      var init := batch[..|batch| - 1];
      var row := batch[|batch| - 1];
      var mid := ApplyDeltas(products, init);
      ApplyDeltasEffect(products, init, k);
      SameCodesSameLookup(mid, products, row.product);
      SameCodesSameLookup(mid, products, products[k].code);
    }
  }

  /** Splits a batch around one of its rows, for the sums below. */
  lemma PendingDeltaAround(batch: seq<Row>, i: nat, product: string)
    requires i < |batch|
    ensures PendingDelta(batch, product) ==
            PendingDelta(batch[..i], product) + PendingDelta([batch[i]], product) + PendingDelta(batch[i + 1..], product)
  {
    assert batch == (batch[..i] + [batch[i]]) + batch[i + 1..];
    PendingDeltaAppend(batch[..i] + [batch[i]], batch[i + 1..], product);
    PendingDeltaAppend(batch[..i], [batch[i]], product);
  }

  /** Updating the row at `index` (for `product`) by `q` adds `q` to what is pending for that product, and nothing else. */
  lemma UpdatedBatchPending(batch: seq<Row>, index: nat, user: string, product: string, q: int, date: string, c: string)
    requires index < |batch| && batch[index].product == product
    ensures PendingDelta(UpdatedBatch(batch, index, user, product, q, date), c) ==
            PendingDelta(batch, c) + (if c == product then q else 0)
  {
    var r := UpdatedBatch(batch, index, user, product, q, date);
    var d := batch[index].delta + q;
    PendingDeltaAround(batch, index, c);
    PendingDeltaSingle(batch[index], c);
    if d == 0 {
      PendingDeltaAppend(batch[..index], batch[index + 1..], c);
    } else {
      assert r[..index] == batch[..index] && r[index + 1..] == batch[index + 1..];
      PendingDeltaAround(r, index, c);
      PendingDeltaSingle(r[index], c);
    }
  }

  /** Appending a row for `product` adds its delta to what is pending for that product, and nothing else. */
  lemma InsertedBatchPending(batch: seq<Row>, id: nat, user: string, product: string, q: int, stored: int, date: string, c: string)
    ensures var r := InsertedBatch(batch, id, user, product, q, stored, date);
            PendingDelta(r, c) == PendingDelta(batch, c) + (if c == product then r[|batch|].delta else 0)
  {
    var r := InsertedBatch(batch, id, user, product, q, stored, date);
    assert r[..|r| - 1] == batch;
  }

  /** The ids of the rows, in batch order. */
  function RowIds(batch: seq<Row>): (r: seq<nat>)
    ensures |r| == |batch| && forall i :: 0 <= i < |batch| ==> r[i] == batch[i].id
  {
    seq(|batch|, i requires 0 <= i < |batch| => batch[i].id)
  }

  /** Updating or deleting a row introduces no new id. */
  lemma UpdatedBatchIds(batch: seq<Row>, index: nat, user: string, product: string, q: int, date: string)
    requires index < |batch|
    ensures var r := UpdatedBatch(batch, index, user, product, q, date);
            forall j :: 0 <= j < |r| ==> r[j].id in RowIds(batch)
  {
    var r := UpdatedBatch(batch, index, user, product, q, date);
    var ids := RowIds(batch);
    forall j | 0 <= j < |r| ensures r[j].id in ids {
      var src := if batch[index].delta + q == 0 && j >= index then j + 1 else j;
      assert r[j].id == ids[src];
    }
  }

  /** Appending a row keeps the old ids and adds the new one. */
  lemma InsertedBatchIds(batch: seq<Row>, id: nat, user: string, product: string, q: int, stored: int, date: string)
    ensures var r := InsertedBatch(batch, id, user, product, q, stored, date);
            r[|batch|].id == id && forall j :: 0 <= j < |batch| ==> r[j].id in RowIds(batch)
  {
    var r := InsertedBatch(batch, id, user, product, q, stored, date);
    var ids := RowIds(batch);
    forall j | 0 <= j < |batch| ensures r[j].id in ids {
      assert r[j].id == ids[j];
    }
  }
}
