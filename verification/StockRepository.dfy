/** stock_balances access (services/inventory/domains/stock/repository/repository.go). Every method
    says how many statements it issues at most, so that a fault is possible only when the
    connection really fails. */
module StockRepository {
  import opened Common
  import opened Schema
  import opened Store
  import Stock
  import LockOrder
  import LockPlan

  /** SELECT ... FOR UPDATE of one row. */
  method GetForUpdate(db: Database, k: Key) returns (r: Result<int>)
    modifies db`budget, db`locked
    ensures db.locked == if r.Success? then LockPlan.LockRow(old(db.locked), k) else old(db.locked)
    ensures r == if old(db.budget) == 0 then Failure(Fault)
                 else if k !in db.balances then Failure(NotFound)
                 else Success(db.balances[k])
    ensures db.budget == if old(db.budget) == 0 then 0 else old(db.budget) - 1
  {
    var ok := db.Statement();
    if !ok {
      return Failure(Fault);
    }
    if k !in db.balances {
      return Failure(NotFound);
    }
    db.locked := LockPlan.LockRow(db.locked, k);
    return Success(db.balances[k]);
  }

  /** INSERT ... ON CONFLICT DO NOTHING, then the locked read. */
  method EnsureBalanceRow(db: Database, k: Key) returns (r: Result<int>)
    modifies db`budget, db`balances, db`locked
    ensures db.locked == old(db.locked) || db.locked == LockPlan.LockRow(old(db.locked), k)
    ensures r.Success? ==> db.locked == LockPlan.LockRow(old(db.locked), k)
    ensures r.Success? ==> db.balances == Stock.EnsureRow(old(db.balances), k) && r.value == db.balances[k]
    ensures r.Failure? ==> r.error == Fault && db.budget == 0
    ensures old(db.budget) - 2 <= db.budget
  {
    var ok := db.Statement();
    if !ok {
      return Failure(Fault);
    }
    if k !in db.balances {
      db.balances := db.balances[k := 0];
    }
    db.locked := LockPlan.LockRow(db.locked, k);
    r := GetForUpdate(db, k);
  }

  method ApplyQuantity(db: Database, k: Key, quantity: int) returns (r: Result<()>)
    requires k in db.balances
    modifies db`budget, db`balances
    ensures r != Failure(Fault) ==> Agrees(r, Stock.SetQuantity(old(db.balances), k, quantity), db.balances)
    ensures r == Failure(Fault) ==> db.budget == 0
    ensures r.Failure? ==> db.balances == old(db.balances)
    ensures old(db.budget) - 1 <= db.budget
  {
    if quantity < 0 {
      return Failure(Insufficient);
    }
    if quantity > MAX_INT32 {
      return Failure(Validation);
    }
    var ok := db.Statement();
    if !ok {
      return Failure(Fault);
    }
    db.balances := db.balances[k := quantity];
    return Success(());
  }

  /** The outcome and the table a method leaves are those of a specification function. */
  ghost predicate Agrees(r: Result<()>, spec: Result<Balances>, balances: Balances) {
    match spec
    case Success(b) => r.Success? && balances == b
    case Failure(e) => r == Failure(e)
  }

  method ApplyDelta(db: Database, k: Key, delta: int) returns (r: Result<()>)
    requires MIN_INT64 <= delta <= MAX_INT64
    modifies db`budget, db`balances, db`locked
    ensures db.locked == old(db.locked) || db.locked == LockPlan.LockRow(old(db.locked), k)
    ensures r.Success? ==> db.locked == LockPlan.LockRow(old(db.locked), k)
    ensures r != Failure(Fault) ==> Agrees(r, Stock.ApplyDelta(old(db.balances), k, delta), db.balances)
    ensures r == Failure(Fault) ==> db.budget == 0
    ensures r.Failure? ==> db.balances == old(db.balances)
    ensures old(db.budget) - 2 <= db.budget
  {
    var row := GetForUpdate(db, k);
    if row.Failure? {
      return Failure(row.error);
    }
    r := ApplyQuantity(db, k, Wrap64(row.value + delta));
  }

  /** The locked reads of both rows, in lock order. */
  method LockPair(db: Database, src: Key, dst: Key) returns (r: Result<(int, int)>)
    requires src.tenant == dst.tenant && src.product == dst.product && src.warehouse != dst.warehouse
    modifies db`budget, db`locked
    ensures LockPlan.LockedSome(old(db.locked), LockPlan.TransferRows(src, dst), db.locked)
    ensures r.Success? ==> db.locked == LockPlan.LockRows(old(db.locked), LockPlan.TransferRows(src, dst))
    ensures r == Failure(Fault) ==> db.budget == 0
    ensures r != Failure(Fault) ==>
              r == if src in db.balances && dst in db.balances then Success((db.balances[src], db.balances[dst]))
                   else Failure(NotFound)
    ensures old(db.budget) - 2 <= db.budget
  {
    var kSrc := LockOrder.RowKey(src.warehouse, src.product);
    var kDst := LockOrder.RowKey(dst.warehouse, src.product);
    var (first, second) := LockOrder.OrderedWarehouseProduct(kSrc, kDst);
    var k1, k2 := Key(src.tenant, first.warehouse, first.product), Key(src.tenant, second.warehouse, second.product);
    LockPlan.LockedNone(db.locked, LockPlan.TransferRows(src, dst));
    LockPlan.PairLocks(db.locked, k1, k2);
    var r1 := GetForUpdate(db, k1);
    if r1.Failure? {
      return Failure(r1.error);
    }
    var r2 := GetForUpdate(db, k2);
    if r2.Failure? {
      return Failure(r2.error);
    }
    if first == kSrc {
      return Success((r1.value, r2.value));
    }
    return Success((r2.value, r1.value));
  }

  method TransferDelta(db: Database, src: Key, dst: Key, quantity: int) returns (r: Result<()>)
    requires src.tenant == dst.tenant && src.product == dst.product
    requires MIN_INT64 <= quantity <= MAX_INT64
    modifies db`budget, db`balances, db`locked
    ensures LockPlan.LockedSome(old(db.locked), LockPlan.TransferRows(src, dst), db.locked)
    ensures r.Success? ==> db.locked == LockPlan.LockRows(old(db.locked), LockPlan.TransferRows(src, dst))
    ensures r != Failure(Fault) ==>
              Agrees(r, Stock.TransferDelta(old(db.balances), src, dst, quantity), db.balances)
    ensures r == Failure(Fault) ==> db.budget == 0
    ensures old(db.budget) - 4 <= db.budget
  {
    LockPlan.LockedNone(db.locked, LockPlan.TransferRows(src, dst));
    if quantity <= 0 {
      return Failure(Validation);
    }
    if src.warehouse == dst.warehouse {
      return Success(());
    }
    var pair := LockPair(db, src, dst);
    if pair.Failure? {
      return Failure(pair.error);
    }
    var (srcQty, dstQty) := pair.value;
    r := ApplyQuantity(db, src, Wrap64(srcQty - quantity));
    if r.Failure? {
      return;
    }
    r := ApplyQuantity(db, dst, Wrap64(dstQty + quantity));
  }
}
