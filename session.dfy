/**
 * The scan-session state machine as a pure specification: the session controller's
 * state, the effect of one scanned code, of the Save button and of the Cancel
 * button, the invariant they keep and the properties of each step.
 */
module Session {
  import opened Wrappers
  import opened Store
  import opened Batch

  /** Reserved scan codes; they are recognised before any user or product lookup. */
  const TAKE_CODE: string := "1"
  const RETURN_CODE: string := "2"
  const CANCEL_CODE: string := "3"

  /** The three ways a product scan is refused. */
  datatype ScanError = NoUser | UnknownProduct | Insufficient

  /** The controller's own state: active user, activity mode, pending batch and row-id counter. */
  datatype SessionState = SessionState(currentUser: Option<string>, mode: Activity, batch: seq<Row>, recordId: nat)

  /** The store together with the controller. */
  datatype State = State(tables: Tables, session: SessionState)

  /** What one scan leads to: the next state and the error shown, if any. */
  datatype Outcome = Outcome(next: State, error: Option<ScanError>)

  /** User input: a scanned code (with the time it was read), or a press of Save or of Cancel. */
  datatype Event = Submit(code: string, date: string) | SavePressed | CancelPressed

  /** The state right after start-up: no active user, Take mode, empty batch, next row id 1. */
  function Init(tables: Tables): State
  {
    State(tables, SessionState(None, TakeProduct, [], 1))
  }

  /** The quantity one product scan contributes in the given mode. */
  function Unit(mode: Activity): int
  {
    if mode == TakeProduct then -1 else 1
  }

  /** The store after committing `batch`: ledger entries first, then the quantities. */
  function Commit(tables: Tables, batch: seq<Row>): Tables
  {
    Tables(tables.users, ApplyDeltas(tables.products, batch), tables.activities + Entries(batch))
  }

  /** Save: commit the batch and clear it. */
  function Save(s: State): State
  {
    State(Commit(s.tables, s.session.batch), s.session.(batch := []))
  }

  /** Cancel: clear the batch without committing it. */
  function Cancel(s: State): State
  {
    s.(session := s.session.(batch := []))
  }

  /** A code that is neither empty, nor reserved, nor a known user: it is treated as a product code. */
  predicate IsProductScan(s: State, code: string)
  {
    code != "" && code != TAKE_CODE && code != RETURN_CODE && code != CANCEL_CODE &&
    FindUserByCode(s.tables.users, code).None?
  }

  /** One scanned code. */
  function Scan(s: State, code: string, date: string): Outcome
  {
    if code == "" then Outcome(s, None)
    else if code == TAKE_CODE then Outcome(s.(session := s.session.(mode := TakeProduct)), None)
    else if code == RETURN_CODE then Outcome(s.(session := s.session.(mode := ReturnProduct)), None)
    else if code == CANCEL_CODE then Outcome(Cancel(s), None)
    else match FindUserByCode(s.tables.users, code)
      case Some(user) => Outcome(ScanUser(s, user.code), None)
      case None => ScanProduct(s, code, date)
  }

  /**
   * A scanned code that names a known user: the active user's own code commits and ends
   * the session; any other code commits when a user is active and makes this user active.
   */
  function ScanUser(s: State, user: string): State
  {
    if s.session.currentUser == Some(user) then
      var saved := Save(s);
      saved.(session := saved.session.(currentUser := None))
    else
      var saved := if s.session.currentUser.Some? then Save(s) else s;
      saved.(session := saved.session.(currentUser := Some(user)))
  }

  /** A scanned code that names no reserved code and no user. */
  function ScanProduct(s: State, code: string, date: string): Outcome
  {
    match s.session.currentUser
    case None => Outcome(s, Some(NoUser))
    case Some(user) =>
      var q := Unit(s.session.mode);
      var item := FindItemByProductId(s.session.batch, code);
      match FindProductByCode(s.tables.products, code)
      case None => Outcome(s, Some(UnknownProduct))
      case Some(k) =>
        var stored := s.tables.products[k].qty;
        var inTable := if item.Some? then s.session.batch[item.value].delta else 0;
        if stored + inTable + q < 0 then Outcome(s, Some(Insufficient))
        else if item.Some? then
          Outcome(s.(session := s.session.(batch := UpdatedBatch(s.session.batch, item.value, user, code, q, date))), None)
        else
          var grown := InsertedBatch(s.session.batch, s.session.recordId, user, code, q, stored, date);
          Outcome(s.(session := s.session.(batch := grown, recordId := s.session.recordId + 1)), None)
  }

  /** One user event: a submitted code, a press of Save or a press of Cancel. */
  function Step(s: State, e: Event): State
  {
    match e
    case Submit(code, date) => Scan(s, code, date).next
    case SavePressed => Save(s)
    case CancelPressed => Cancel(s)
  }

  /** The events applied one after another, from the first. */
  function Run(s: State, events: seq<Event>): State
    decreases |events|
  {
    if events == [] then s else Run(Step(s, events[0]), events[1..])
  }

  // ---------------------------------------------------------------------------
  // The invariant

  /** The row's product exists, and its stored quantity plus the row's delta is not negative. */
  predicate Covered(products: seq<Product>, row: Row)
  {
    match FindProductByCode(products, row.product)
    case None => false
    case Some(k) => products[k].qty + row.delta >= 0
  }

  /** What every pending batch satisfies, given the product table and the row-id counter. */
  predicate RowsWellFormed(products: seq<Product>, batch: seq<Row>, recordId: nat)
  {
    DistinctProducts(batch) &&
    (forall i :: 0 <= i < |batch| ==> batch[i].delta != 0) &&
    (forall i :: 0 <= i < |batch| ==> batch[i].activity == LabelFor(batch[i].delta)) &&
    (forall i :: 0 <= i < |batch| ==> batch[i].id < recordId) &&
    (forall i, j :: 0 <= i < j < |batch| ==> batch[i].id < batch[j].id) &&
    (forall i :: 0 <= i < |batch| ==> Covered(products, batch[i]))
  }

  /** Every row was scanned by `user`. */
  predicate OwnedBy(batch: seq<Row>, user: string)
  {
    forall i :: 0 <= i < |batch| ==> batch[i].user == user
  }

  /** The session invariant: well-formed rows, all of the active user, and no user means no rows. */
  predicate Inv(s: State)
  {
    RowsWellFormed(s.tables.products, s.session.batch, s.session.recordId) &&
    match s.session.currentUser
    case None => s.session.batch == []
    case Some(user) => OwnedBy(s.session.batch, user)
  }

  /** A session with an active user keeps the invariant when its rows stay well formed and owned by that user. */
  lemma InvWithRows(s: State, batch: seq<Row>, recordId: nat)
    requires s.session.currentUser.Some?
    requires RowsWellFormed(s.tables.products, batch, recordId) && OwnedBy(batch, s.session.currentUser.value)
    ensures Inv(s.(session := s.session.(batch := batch, recordId := recordId)))
  {
  }

  /** The start-up state satisfies the invariant. */
  lemma InitInv(tables: Tables)
    ensures Inv(Init(tables))
  {
  }

  /** Deleting one row keeps the rows well formed. */
  lemma RemoveKeepsRows(products: seq<Product>, batch: seq<Row>, recordId: nat, index: nat)
    requires RowsWellFormed(products, batch, recordId) && index < |batch|
    ensures RowsWellFormed(products, batch[..index] + batch[index + 1..], recordId)
  {
    var r := batch[..index] + batch[index + 1..];
    assert forall j :: 0 <= j < |r| ==> r[j] == batch[if j < index then j else j + 1];
  }

  /** Replacing a row by one for the same product, with the same id, keeps the rows well formed when the new row is. */
  lemma ReplaceKeepsRows(products: seq<Product>, batch: seq<Row>, recordId: nat, index: nat, row: Row)
    requires RowsWellFormed(products, batch, recordId) && index < |batch|
    requires row.id == batch[index].id && row.product == batch[index].product
    requires row.delta != 0 && row.activity == LabelFor(row.delta) && Covered(products, row)
    ensures RowsWellFormed(products, batch[index := row], recordId)
  {
  }

  /** Updating (or deleting) an existing row after an accepted scan keeps the rows well formed. */
  lemma UpdateKeepsRows(products: seq<Product>, batch: seq<Row>, recordId: nat, index: nat,
                        user: string, product: string, q: int, date: string)
    requires RowsWellFormed(products, batch, recordId)
    requires index < |batch| && batch[index].product == product
    requires FindProductByCode(products, product).Some?
    requires products[FindProductByCode(products, product).value].qty + batch[index].delta + q >= 0
    ensures RowsWellFormed(products, UpdatedBatch(batch, index, user, product, q, date), recordId)
  {
    var r := UpdatedBatch(batch, index, user, product, q, date);
    var d := batch[index].delta + q;
    if d == 0 {
      RemoveKeepsRows(products, batch, recordId, index);
    } else {
      var row := Row(batch[index].id, user, product, d, LabelFor(d), date);
      assert r == batch[index := row];
      ReplaceKeepsRows(products, batch, recordId, index, row);
    }
  }

  /** Appending a fresh row after an accepted scan keeps the rows well formed, with the counter moved on. */
  lemma InsertKeepsRows(products: seq<Product>, batch: seq<Row>, recordId: nat,
                        user: string, product: string, q: int, date: string)
    requires RowsWellFormed(products, batch, recordId)
    requires FindItemByProductId(batch, product).None?
    requires FindProductByCode(products, product).Some?
    requires q == 1 || q == -1
    requires products[FindProductByCode(products, product).value].qty + q >= 0
    ensures var stored := products[FindProductByCode(products, product).value].qty;
            RowsWellFormed(products, InsertedBatch(batch, recordId, user, product, q, stored, date), recordId + 1)
  {
    var stored := products[FindProductByCode(products, product).value].qty;
    var r := InsertedBatch(batch, recordId, user, product, q, stored, date);
    assert forall j :: 0 <= j < |batch| ==> r[j] == batch[j];
    assert r[|batch|].delta == q;
    assert Covered(products, r[|batch|]);
  }

  /** Updating a row of a batch scanned by `user`, on behalf of `user`, keeps it scanned by `user`. */
  lemma UpdatedBatchOwned(batch: seq<Row>, index: nat, user: string, product: string, q: int, date: string)
    requires index < |batch| && OwnedBy(batch, user)
    ensures OwnedBy(UpdatedBatch(batch, index, user, product, q, date), user)
  {
    var r := UpdatedBatch(batch, index, user, product, q, date);
    if batch[index].delta + q == 0 {
      assert forall j :: 0 <= j < |r| ==> r[j] == batch[if j < index then j else j + 1];
    }
  }

  /** Appending a row scanned by `user` to a batch scanned by `user` keeps it scanned by `user`. */
  lemma InsertedBatchOwned(batch: seq<Row>, id: nat, user: string, product: string, q: int, stored: int, date: string)
    requires OwnedBy(batch, user)
    ensures OwnedBy(InsertedBatch(batch, id, user, product, q, stored, date), user)
  {
    var r := InsertedBatch(batch, id, user, product, q, stored, date);
    assert forall j :: 0 <= j < |batch| ==> r[j] == batch[j];
  }

  /** Saving keeps the session invariant. */
  lemma SaveInv(s: State)
    requires Inv(s)
    ensures Inv(Save(s))
  {
  }

  /** Cancelling keeps the session invariant. */
  lemma CancelInv(s: State)
    requires Inv(s)
    ensures Inv(Cancel(s))
  {
  }

  /** A product scan is decided by `ScanProduct` alone. */
  lemma ScanOfProduct(s: State, code: string, date: string)
    requires IsProductScan(s, code)
    ensures Scan(s, code, date) == ScanProduct(s, code, date)
  {
  }

  /** Every product scan, accepted or refused, keeps the session invariant. */
  lemma ScanProductInv(s: State, code: string, date: string)
    requires Inv(s)
    ensures Inv(ScanProduct(s, code, date).next)
  {
    if s.session.currentUser.Some? {
      var user := s.session.currentUser.value;
      var batch := s.session.batch;
      var products := s.tables.products;
      var q := Unit(s.session.mode);
      var item := FindItemByProductId(batch, code);
      var found := FindProductByCode(products, code);
      if found.Some? {
        var stored := products[found.value].qty;
        var inTable := if item.Some? then batch[item.value].delta else 0;
        if stored + inTable + q >= 0 {
          var s' := ScanProduct(s, code, date).next;
          if item.Some? {
            var rows := UpdatedBatch(batch, item.value, user, code, q, date);
            assert s' == s.(session := s.session.(batch := rows, recordId := s.session.recordId));
            UpdateKeepsRows(products, batch, s.session.recordId, item.value, user, code, q, date);
            UpdatedBatchOwned(batch, item.value, user, code, q, date);
            InvWithRows(s, rows, s.session.recordId);
          } else {
            var rows := InsertedBatch(batch, s.session.recordId, user, code, q, stored, date);
            assert s' == s.(session := s.session.(batch := rows, recordId := s.session.recordId + 1));
            InsertKeepsRows(products, batch, s.session.recordId, user, code, q, date);
            InsertedBatchOwned(batch, s.session.recordId, user, code, q, stored, date);
            InvWithRows(s, rows, s.session.recordId + 1);
          }
        }
      }
    }
  }

  /** Every scan keeps the session invariant. */
  lemma ScanInv(s: State, code: string, date: string)
    requires Inv(s)
    ensures Inv(Scan(s, code, date).next)
  {
    if IsProductScan(s, code) {
      ScanOfProduct(s, code, date);
      ScanProductInv(s, code, date);
    }
  }

  /** A scan, a press of Save or a press of Cancel keeps the session invariant. */
  lemma StepInv(s: State, e: Event)
    requires Inv(s)
    ensures Inv(Step(s, e))
  {
    match e
    case Submit(code, date) => ScanInv(s, code, date);
    case SavePressed => SaveInv(s);
    case CancelPressed => CancelInv(s);
  }

  /** Any sequence of scans and button presses from a state satisfying the invariant keeps it. */
  lemma {:induction false} RunInv(s: State, events: seq<Event>)
    requires Inv(s)
    ensures Inv(Run(s, events))
    decreases |events|
  {
    if events != [] {
      StepInv(s, events[0]);
      RunInv(Step(s, events[0]), events[1..]);
    }
  }

  // ---------------------------------------------------------------------------
  // Product scans

  /** A refused scan leaves the store, the batch, the user, the mode and the counter as they were. */
  lemma RejectedScanChangesNothing(s: State, code: string, date: string)
    ensures Scan(s, code, date).error.Some? ==> Scan(s, code, date).next == s
  {
  }

  /**
   * Exactly when each error is reported: no active user; an unknown product; or a stored
   * quantity that, with everything pending for the product and the new unit, would be negative.
   */
  lemma ScanErrorCases(s: State, code: string, date: string)
    requires Inv(s)
    ensures var e := Scan(s, code, date).error;
            var found := FindProductByCode(s.tables.products, code);
            (e == Some(NoUser) <==> IsProductScan(s, code) && s.session.currentUser.None?) &&
            (e == Some(UnknownProduct) <==> IsProductScan(s, code) && s.session.currentUser.Some? && found.None?) &&
            (e == Some(Insufficient) <==>
               IsProductScan(s, code) && s.session.currentUser.Some? && found.Some? &&
               s.tables.products[found.value].qty + PendingDelta(s.session.batch, code) + Unit(s.session.mode) < 0)
  {
    if IsProductScan(s, code) && s.session.currentUser.Some? {
      var found := FindProductByCode(s.tables.products, code);
      PendingDeltaIsRowDelta(s.session.batch, code);
      if found.Some? {
        var item := FindItemByProductId(s.session.batch, code);
        var inTable := if item.Some? then s.session.batch[item.value].delta else 0;
        assert inTable == PendingDelta(s.session.batch, code);
      }
    }
  }

  /**
   * An accepted product scan adds one unit (-1 in Take mode, +1 in Return mode) to what is
   * pending for the scanned product and changes nothing pending for any other product; the
   * product keeps a row exactly when its pending delta is not zero; a new row is appended
   * only when the product had none, with the next id, holding exactly the unit; store, user
   * and mode are untouched.
   */
  lemma AcceptedProductScan(s: State, code: string, date: string)
    requires Inv(s) && IsProductScan(s, code)
    requires Scan(s, code, date).error.None?
    ensures var s' := Scan(s, code, date).next;
            s'.tables == s.tables && s'.session.currentUser == s.session.currentUser && s'.session.mode == s.session.mode
    ensures var s' := Scan(s, code, date).next;
            forall c :: PendingDelta(s'.session.batch, c) ==
                        PendingDelta(s.session.batch, c) + (if c == code then Unit(s.session.mode) else 0)
    ensures var s' := Scan(s, code, date).next;
            FindItemByProductId(s'.session.batch, code).None? <==> PendingDelta(s'.session.batch, code) == 0
    ensures var s' := Scan(s, code, date).next;
            var q := Unit(s.session.mode);
            if FindItemByProductId(s.session.batch, code).None? then
              s'.session.recordId == s.session.recordId + 1 &&
              s'.session.batch == s.session.batch + [Row(s.session.recordId, s.session.currentUser.value, code, q, LabelFor(q), date)]
            else
              s'.session.recordId == s.session.recordId &&
              s'.session.batch == UpdatedBatch(s.session.batch, FindItemByProductId(s.session.batch, code).value,
                                               s.session.currentUser.value, code, q, date)
  {
    ScanOfProduct(s, code, date);
    ScanProductInv(s, code, date);
    var s' := ScanProduct(s, code, date).next;
    var batch := s.session.batch;
    var user := s.session.currentUser.value;
    var q := Unit(s.session.mode);
    var item := FindItemByProductId(batch, code);
    var k := FindProductByCode(s.tables.products, code).value;
    var stored := s.tables.products[k].qty;
    if item.Some? {
      assert s'.session.batch == UpdatedBatch(batch, item.value, user, code, q, date);
      forall c ensures PendingDelta(s'.session.batch, c) == PendingDelta(batch, c) + (if c == code then q else 0) {
        UpdatedBatchPending(batch, item.value, user, code, q, date, c);
      }
    } else {
      assert s'.session.batch == InsertedBatch(batch, s.session.recordId, user, code, q, stored, date);
      forall c ensures PendingDelta(s'.session.batch, c) == PendingDelta(batch, c) + (if c == code then q else 0) {
        InsertedBatchPending(batch, s.session.recordId, user, code, q, stored, date, c);
      }
    }
    PendingDeltaIsRowDelta(s'.session.batch, code);
  }

  // ---------------------------------------------------------------------------
  // User scans and reserved codes

  /**
   * Scanning a known user: the batch is committed whenever a user was active; the active
   * user's own code ends the session, any other code makes that user active; the mode and
   * the counter are untouched and the batch ends empty.
   */
  lemma UserScan(s: State, code: string, date: string)
    requires Inv(s)
    requires code != "" && code != TAKE_CODE && code != RETURN_CODE && code != CANCEL_CODE
    requires FindUserByCode(s.tables.users, code).Some?
    ensures var r := Scan(s, code, date);
            r.error.None? &&
            r.next.tables == (if s.session.currentUser.Some? then Commit(s.tables, s.session.batch) else s.tables) &&
            r.next.session.currentUser == (if s.session.currentUser == Some(code) then None else Some(code)) &&
            r.next.session.mode == s.session.mode &&
            r.next.session.recordId == s.session.recordId &&
            r.next.session.batch == []
  {
  }

  /**
   * Empty input does nothing; the reserved codes act before any user or product lookup:
   * "1" and "2" only set the mode, "3" only empties the batch.
   */
  lemma ReservedInput(s: State, date: string)
    ensures Scan(s, "", date) == Outcome(s, None)
    ensures Scan(s, TAKE_CODE, date) == Outcome(s.(session := s.session.(mode := TakeProduct)), None)
    ensures Scan(s, RETURN_CODE, date) == Outcome(s.(session := s.session.(mode := ReturnProduct)), None)
    ensures var r := Scan(s, CANCEL_CODE, date);
            r.error.None? && r.next.tables == s.tables && r.next.session == s.session.(batch := [])
  {
  }

  // ---------------------------------------------------------------------------
  // Commit

  /**
   * Committing appends one ledger entry per row, in batch order, holding the row's user,
   * product, net delta, label and date, keeps every earlier entry and leaves the users alone.
   */
  lemma CommitLedger(tables: Tables, batch: seq<Row>)
    ensures var t := Commit(tables, batch);
            t.users == tables.users &&
            |t.activities| == |tables.activities| + |batch| &&
            t.activities[..|tables.activities|] == tables.activities &&
            forall i :: 0 <= i < |batch| ==>
              t.activities[|tables.activities| + i] ==
              LedgerEntry(batch[i].user, batch[i].product, batch[i].delta, batch[i].activity, batch[i].date)
  {
  }

  /**
   * Committing adds to the first product row for each code everything pending for that
   * code and leaves every other quantity, and every code and name, as it was.
   */
  lemma CommitProducts(tables: Tables, batch: seq<Row>, k: nat)
    requires k < |tables.products|
    ensures var p := tables.products[k];
            |Commit(tables, batch).products| == |tables.products| &&
            Commit(tables, batch).products[k] ==
            p.(qty := p.qty + if FindProductByCode(tables.products, p.code) == Some(k) then PendingDelta(batch, p.code) else 0)
  {
    ApplyDeltasEffect(tables.products, batch, k);
  }

  /** Committing an empty batch changes nothing. */
  lemma CommitEmpty(tables: Tables)
    ensures Commit(tables, []) == tables
  {
    assert tables.activities + [] == tables.activities;
  }

  /** Under the invariant, saving never leaves a product it changed with a negative quantity. */
  lemma SaveNonNegative(s: State)
    requires Inv(s)
    ensures var ps := Save(s).tables.products;
            |ps| == |s.tables.products| &&
            forall k :: 0 <= k < |ps| ==> ps[k] == s.tables.products[k] || ps[k].qty >= 0
  {
    var products := s.tables.products;
    var batch := s.session.batch;
    forall k | 0 <= k < |products|
      ensures ApplyDeltas(products, batch)[k] == products[k] || ApplyDeltas(products, batch)[k].qty >= 0
    {
      ApplyDeltasEffect(products, batch, k);
      var c := products[k].code;
      PendingDeltaIsRowDelta(batch, c);
      var item := FindItemByProductId(batch, c);
      if FindProductByCode(products, c) == Some(k) && item.Some? {
        assert Covered(products, batch[item.value]);
      }
    }
  }

  // ---------------------------------------------------------------------------
  // Row ids

  /**
   * The counter never goes back and moves by at most one per scan; every row after a scan
   * either keeps an id already in the batch or carries the counter's old value, which was
   * then used up.
   */
  lemma ScanIds(s: State, code: string, date: string)
    ensures var s' := Scan(s, code, date).next;
            s'.session.recordId == s.session.recordId || s'.session.recordId == s.session.recordId + 1
    ensures var s' := Scan(s, code, date).next;
            forall j :: 0 <= j < |s'.session.batch| ==>
              s'.session.batch[j].id in RowIds(s.session.batch) ||
              (s'.session.batch[j].id == s.session.recordId && s'.session.recordId == s.session.recordId + 1)
  {
    if IsProductScan(s, code) {
      ScanOfProduct(s, code, date);
      ScanProductIds(s, code, date);
    }
  }

  /** `ScanIds` for the product scans. */
  lemma ScanProductIds(s: State, code: string, date: string)
    ensures var s' := ScanProduct(s, code, date).next;
            s'.session.recordId == s.session.recordId || s'.session.recordId == s.session.recordId + 1
    ensures var s' := ScanProduct(s, code, date).next;
            forall j :: 0 <= j < |s'.session.batch| ==>
              s'.session.batch[j].id in RowIds(s.session.batch) ||
              (s'.session.batch[j].id == s.session.recordId && s'.session.recordId == s.session.recordId + 1)
  {
    var s' := ScanProduct(s, code, date).next;
    var batch := s.session.batch;
    if s'.session != s.session {
      var user := s.session.currentUser.value;
      var q := Unit(s.session.mode);
      var item := FindItemByProductId(batch, code);
      if item.Some? {
        assert s'.session.batch == UpdatedBatch(batch, item.value, user, code, q, date);
        UpdatedBatchIds(batch, item.value, user, code, q, date);
      } else {
        var stored := s.tables.products[FindProductByCode(s.tables.products, code).value].qty;
        assert s'.session.batch == InsertedBatch(batch, s.session.recordId, user, code, q, stored, date);
        InsertedBatchIds(batch, s.session.recordId, user, code, q, stored, date);
      }
    }
  }

  /** Over any sequence of scans and button presses the row-id counter never decreases. */
  lemma {:induction false} RunCounterMonotone(s: State, events: seq<Event>)
    ensures Run(s, events).session.recordId >= s.session.recordId
    decreases |events|
  {
    if events != [] {
      var s1 := Step(s, events[0]);
      if events[0].Submit? {
        ScanIds(s, events[0].code, events[0].date);
      }
      RunCounterMonotone(s1, events[1..]);
    }
  }

  /** `ScanIds` for every event: Save and Cancel leave no rows and keep the counter. */
  lemma StepIds(s: State, e: Event)
    ensures var s' := Step(s, e);
            s'.session.recordId == s.session.recordId || s'.session.recordId == s.session.recordId + 1
    ensures var s' := Step(s, e);
            forall j :: 0 <= j < |s'.session.batch| ==>
              s'.session.batch[j].id in RowIds(s.session.batch) ||
              (s'.session.batch[j].id == s.session.recordId && s'.session.recordId == s.session.recordId + 1)
  {
    if e.Submit? {
      ScanIds(s, e.code, e.date);
    }
  }

  /**
   * Over any sequence of scans and button presses, saves and cancels included, every row
   * at the end either was already in the batch at the start or carries an id the counter
   * handed out during the run: no id is ever given to two rows.
   */
  lemma {:induction false} RunIds(s: State, events: seq<Event>)
    ensures var t := Run(s, events);
            forall j :: 0 <= j < |t.session.batch| ==>
              t.session.batch[j].id in RowIds(s.session.batch) ||
              s.session.recordId <= t.session.batch[j].id < t.session.recordId
    decreases |events|
  {
    if events != [] {
      var s1 := Step(s, events[0]);
      var t := Run(s1, events[1..]);
      assert t == Run(s, events);
      StepIds(s, events[0]);
      RunIds(s1, events[1..]);
      RunCounterMonotone(s1, events[1..]);
      var ids1 := RowIds(s1.session.batch);
      forall j | 0 <= j < |t.session.batch| && t.session.batch[j].id in ids1
        ensures t.session.batch[j].id in RowIds(s.session.batch) ||
                s.session.recordId <= t.session.batch[j].id < t.session.recordId
      {
        var k :| 0 <= k < |ids1| && ids1[k] == t.session.batch[j].id;
        assert s1.session.batch[k].id == t.session.batch[j].id;
      }
    }
  }

  // ---------------------------------------------------------------------------
  // Two scenarios

  /** The user-in, take, take prefix both scenarios share, from `qty` units of "P1" in stock. */
  lemma {:induction false} TwoTakes(qty: int, d1: string, d2: string, d3: string)
    requires qty >= 2
    ensures var s0 := Init(Tables([User("U1", "worker")], [Product("P1", "bolt", qty)], []));
            var s3 := Scan(Scan(Scan(s0, "U1", d1).next, "P1", d2).next, "P1", d3).next;
            s3 == State(s0.tables, SessionState(Some("U1"), TakeProduct, [Row(1, "U1", "P1", -2, TakeProduct, d3)], 2))
  {
    var users := [User("U1", "worker")];
    var products := [Product("P1", "bolt", qty)];
    var tables := Tables(users, products, []);
    assert UserCodes(users) == ["U1"] && ProductCodes(products) == ["P1"];
    assert FindUserByCode(users, "P1").None?;
    var s0 := Init(tables);
    var s1 := Scan(s0, "U1", d1).next;
    assert s1 == State(tables, SessionState(Some("U1"), TakeProduct, [], 1));
    ScanOfProduct(s1, "P1", d2);
    assert RowProducts([]) == [];
    var s2 := Scan(s1, "P1", d2).next;
    assert s2 == State(tables, SessionState(Some("U1"), TakeProduct, [Row(1, "U1", "P1", -1, TakeProduct, d2)], 2));
    ScanOfProduct(s2, "P1", d3);
    assert RowProducts(s2.session.batch) == ["P1"];
  }

  /**
   * Product "P1" has 5 in stock; user "U1" scans in, takes "P1" twice and scans out.
   * The batch holds one row with delta -2 (the id 1, the second scan's date); committing it
   * writes ONE ledger entry of -2, not one per scan, and leaves 3 in stock.
   */
  lemma TakeTwiceThenCommit(d1: string, d2: string, d3: string, d4: string)
    ensures var s0 := Init(Tables([User("U1", "worker")], [Product("P1", "bolt", 5)], []));
            var s3 := Scan(Scan(Scan(s0, "U1", d1).next, "P1", d2).next, "P1", d3).next;
            var s4 := Scan(s3, "U1", d4).next;
            s3.session.batch == [Row(1, "U1", "P1", -2, TakeProduct, d3)] &&
            s4.tables.products == [Product("P1", "bolt", 3)] &&
            s4.tables.activities == [LedgerEntry("U1", "P1", -2, TakeProduct, d3)] &&
            s4.session == SessionState(None, TakeProduct, [], 2)
  {
    TwoTakes(5, d1, d2, d3);
    var users := [User("U1", "worker")];
    var products := [Product("P1", "bolt", 5)];
    var row := Row(1, "U1", "P1", -2, TakeProduct, d3);
    var s3 := State(Tables(users, products, []), SessionState(Some("U1"), TakeProduct, [row], 2));
    assert UserCodes(users) == ["U1"] && ProductCodes(products) == ["P1"];
    assert Scan(s3, "U1", d4).next == ScanUser(s3, "U1");
    assert [row][..0] == [];
    assert ApplyDeltas(products, [row]) == ApplyRow(products, row);
    assert Entries([row]) == [ToEntry(row)];
  }

  /** With 2 in stock and two takes pending, a third take is refused and nothing changes. */
  lemma ThirdTakeRefused(d1: string, d2: string, d3: string, d4: string)
    ensures var s0 := Init(Tables([User("U1", "worker")], [Product("P1", "bolt", 2)], []));
            var s3 := Scan(Scan(Scan(s0, "U1", d1).next, "P1", d2).next, "P1", d3).next;
            Scan(s3, "P1", d4) == Outcome(s3, Some(Insufficient))
  {
    TwoTakes(2, d1, d2, d3);
    var users := [User("U1", "worker")];
    var products := [Product("P1", "bolt", 2)];
    var s3 := State(Tables(users, products, []), SessionState(Some("U1"), TakeProduct, [Row(1, "U1", "P1", -2, TakeProduct, d3)], 2));
    assert UserCodes(users) == ["U1"] && ProductCodes(products) == ["P1"];
    assert FindUserByCode(users, "P1").None?;
    ScanOfProduct(s3, "P1", d4);
    assert RowProducts(s3.session.batch) == ["P1"];
  }
}
