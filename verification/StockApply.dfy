/** applyStock: the lines of a confirmed movement against the balances
    (services/inventory/domains/movement/usecase/stock_apply.go). The recorded quantities are
    computed in int32, as the source does; that they are the exact ones is what is proved. */
module StockApply {
  import opened Common
  import opened Schema
  import opened Store
  import opened StockRepository
  import opened LockPlan
  import Stock
  import StockLaws

  function MapStockNotFound(e: Error): Error {
    if e == NotFound then Insufficient else e
  }

  /** The outcome of applying `lines`, the table it leaves and the changes it reports. */
  ghost predicate Applies(r: Result<seq<Change>>, spec: Result<Stock.Applied>, balances: Balances) {
    match spec
    case Success(a) => r == Success(a.changes) && balances == a.balances
    case Failure(e) => r == Failure(e)
  }

  /** A line that fails makes the whole movement fail with the same error. */
  lemma {:induction false} FailsFrom(b: Balances, m: Movement, lines: seq<Line>, i: nat, e: Error)
    requires WarehousesOk(m) && i <= |lines|
    requires Stock.ApplyLines(b, m, lines[..i]) == Failure(e)
    ensures Stock.ApplyLines(b, m, lines) == Failure(e)
    decreases |lines|
  {
    if i == |lines| {
      assert lines[..i] == lines;
    } else {
      var n := |lines| - 1;
      assert lines[..n][..i] == lines[..i];
      FailsFrom(b, m, lines[..n], i, e);
    }
  }

  /** The state of a loop over the lines after `i` of them. */
  ghost predicate Progress(b0: Balances, m: Movement, i: nat, balances: Balances, changes: seq<Change>)
    requires WarehousesOk(m) && i <= |m.lines|
  {
    Stock.ApplyLines(b0, m, m.lines[..i]) == Success(Stock.Applied(balances, changes)) && InRange(balances)
  }

  lemma ProgressStep(b0: Balances, m: Movement, i: nat, b: Balances, changes: seq<Change>)
    requires MovementOk(m) && InRange(b0) && i < |m.lines| && Progress(b0, m, i, b, changes)
    ensures var step := Stock.ApplyLine(b, m, m.lines[i]);
            && (step.Success? ==> Progress(b0, m, i + 1, step.value.balances, changes + step.value.changes))
            && (step.Failure? ==> Stock.ApplyLines(b0, m, m.lines) == Failure(step.error))
  {
    var pre := m.lines[..i + 1];
    assert pre[..i] == m.lines[..i] && pre[i] == m.lines[i];
    var step := Stock.ApplyLine(b, m, m.lines[i]);
    if step.Failure? {
      FailsFrom(b0, m, m.lines, i + 1, step.error);
    } else {
      StockLaws.ApplyLineExact(b, m, m.lines[i]);
    }
  }

  method RaiseLine(db: Database, k: Key, quantity: int) returns (r: Result<seq<Change>>)
    requires InRange(db.balances) && 0 < quantity <= MAX_INT32
    modifies db`budget, db`balances, db`locked
    ensures LockedSome(old(db.locked), [k], db.locked)
    ensures r.Success? ==> db.locked == LockRows(old(db.locked), [k])
    ensures r != Failure(Fault) ==> Applies(r, Stock.Raise(old(db.balances), k, quantity), db.balances)
    ensures r == Failure(Fault) ==> db.budget == 0
    ensures old(db.budget) - 4 <= db.budget
  {
    var row := EnsureBalanceRow(db, k);
    LockedOne(old(db.locked), k, db.locked);
    if row.Failure? {
      return Failure(row.error);
    }
    var old_ := row.value;
    LockOne(old(db.locked), k);
    var applied := ApplyDelta(db, k, quantity);
    if applied.Failure? {
      return Failure(applied.error);
    }
    return Success([Change(k, old_, Wrap32(old_ + quantity))]);
  }

  method LowerLine(db: Database, k: Key, quantity: int) returns (r: Result<seq<Change>>)
    requires InRange(db.balances) && 0 < quantity <= MAX_INT32
    modifies db`budget, db`balances, db`locked
    ensures LockedSome(old(db.locked), [k], db.locked)
    ensures r.Success? ==> db.locked == LockRows(old(db.locked), [k])
    ensures r != Failure(Fault) ==> Applies(r, Stock.Lower(old(db.balances), k, quantity), db.balances)
    ensures r == Failure(Fault) ==> db.budget == 0
    ensures old(db.budget) - 3 <= db.budget
  {
    var row := GetForUpdate(db, k);
    LockedOne(old(db.locked), k, db.locked);
    if row.Failure? {
      return Failure(MapStockNotFound(row.error));
    }
    var old_ := row.value;
    LockOne(old(db.locked), k);
    var applied := ApplyDelta(db, k, -quantity);
    if applied.Failure? {
      return Failure(applied.error);
    }
    return Success([Change(k, old_, Wrap32(old_ - quantity))]);
  }

  /** The new quantities of a transfer line are read back and the old ones computed from them. */
  method ReadMoved(db: Database, src: Key, dst: Key, quantity: int) returns (r: Result<seq<Change>>)
    requires src in db.locked && dst in db.locked && src in db.balances && dst in db.balances
    modifies db`budget, db`locked
    ensures db.locked == old(db.locked)
    ensures r.Success? ==>
              r.value == [Change(src, Wrap32(db.balances[src] + quantity), db.balances[src]),
                          Change(dst, Wrap32(db.balances[dst] - quantity), db.balances[dst])]
    ensures r.Failure? ==> r == Failure(Fault) && db.budget == 0
    ensures old(db.budget) - 2 <= db.budget
  {
    var s := GetForUpdate(db, src);
    if s.Failure? {
      return Failure(MapStockNotFound(s.error));
    }
    var d := GetForUpdate(db, dst);
    if d.Failure? {
      return Failure(d.error);
    }
    var newS, newD := s.value, d.value;
    var oldS := Wrap32(newS + quantity);
    var oldD := Wrap32(newD - quantity);
    return Success([Change(src, oldS, newS), Change(dst, oldD, newD)]);
  }

  method MoveLine(db: Database, src: Key, dst: Key, quantity: int) returns (r: Result<seq<Change>>)
    requires InRange(db.balances) && 0 < quantity <= MAX_INT32
    requires src.tenant == dst.tenant && src.product == dst.product && src.warehouse != dst.warehouse
    modifies db`budget, db`balances, db`locked
    ensures LockedSome(old(db.locked), [dst, src], db.locked)
    ensures r.Success? ==> db.locked == LockRows(old(db.locked), [dst, src])
    ensures r != Failure(Fault) ==> Applies(r, Stock.Move(old(db.balances), src, dst, quantity), db.balances)
    ensures r == Failure(Fault) ==> db.budget == 0
    ensures old(db.budget) - 8 <= db.budget
  {
    var ensured := EnsureBalanceRow(db, dst);
    LockedTwo(old(db.locked), dst, src, db.locked);
    if ensured.Failure? {
      return Failure(ensured.error);
    }
    var moved := TransferDelta(db, src, dst, quantity);
    TransferLineLocks(old(db.locked), src, dst, db.locked);
    if moved.Failure? {
      return Failure(MapStockNotFound(moved.error));
    }
    r := ReadMoved(db, src, dst, quantity);
  }

  method ApplyInbound(db: Database, m: Movement) returns (r: Result<seq<Change>>)
    requires MovementOk(m) && InRange(db.balances) && m.kind == Inbound
    modifies db`budget, db`balances, db`locked
    ensures r != Failure(Fault) ==> Applies(r, Stock.ApplyStock(old(db.balances), m), db.balances)
    ensures LockedSome(old(db.locked), RowsOfLines(m, m.lines), db.locked)
    ensures r.Success? ==> db.locked == LockRows(old(db.locked), RowsOfLines(m, m.lines))
    ensures r == Failure(Fault) ==> db.budget == 0
    ensures old(db.budget) - 4 * |m.lines| <= db.budget
  {
    var out := [];
    for i := 0 to |m.lines|
      invariant Progress(old(db.balances), m, i, db.balances, out)
      invariant db.locked == LockRows(old(db.locked), RowsOfLines(m, m.lines[..i]))
      invariant old(db.budget) - 4 * i <= db.budget
    {
      ProgressStep(old(db.balances), m, i, db.balances, out);
      var k := Key(m.tenant, m.destination.value, m.lines[i].product);
      assert LineRows(m, m.lines[i].product) == [k];
      var c := RaiseLine(db, k, m.lines[i].quantity);
      LocksStep(old(db.locked), m, m.lines, i, db.locked);
      if c.Failure? {
        return c;
      }
      out := out + c.value;
    }
    assert m.lines[..|m.lines|] == m.lines;
    LockedAll(old(db.locked), RowsOfLines(m, m.lines));
    return Success(out);
  }

  method ApplyOutbound(db: Database, m: Movement) returns (r: Result<seq<Change>>)
    requires MovementOk(m) && InRange(db.balances) && m.kind == Outbound
    modifies db`budget, db`balances, db`locked
    ensures r != Failure(Fault) ==> Applies(r, Stock.ApplyStock(old(db.balances), m), db.balances)
    ensures LockedSome(old(db.locked), RowsOfLines(m, m.lines), db.locked)
    ensures r.Success? ==> db.locked == LockRows(old(db.locked), RowsOfLines(m, m.lines))
    ensures r == Failure(Fault) ==> db.budget == 0
    ensures old(db.budget) - 3 * |m.lines| <= db.budget
  {
    var out := [];
    for i := 0 to |m.lines|
      invariant Progress(old(db.balances), m, i, db.balances, out)
      invariant db.locked == LockRows(old(db.locked), RowsOfLines(m, m.lines[..i]))
      invariant old(db.budget) - 3 * i <= db.budget
    {
      ProgressStep(old(db.balances), m, i, db.balances, out);
      var k := Key(m.tenant, m.source.value, m.lines[i].product);
      assert LineRows(m, m.lines[i].product) == [k];
      var c := LowerLine(db, k, m.lines[i].quantity);
      LocksStep(old(db.locked), m, m.lines, i, db.locked);
      if c.Failure? {
        return c;
      }
      out := out + c.value;
    }
    assert m.lines[..|m.lines|] == m.lines;
    LockedAll(old(db.locked), RowsOfLines(m, m.lines));
    return Success(out);
  }

  method ApplyTransfer(db: Database, m: Movement) returns (r: Result<seq<Change>>)
    requires MovementOk(m) && InRange(db.balances) && m.kind == Transfer
    modifies db`budget, db`balances, db`locked
    ensures r != Failure(Fault) ==> Applies(r, Stock.ApplyStock(old(db.balances), m), db.balances)
    ensures LockedSome(old(db.locked), RowsOfLines(m, m.lines), db.locked)
    ensures r.Success? ==> db.locked == LockRows(old(db.locked), RowsOfLines(m, m.lines))
    ensures r == Failure(Fault) ==> db.budget == 0
    ensures old(db.budget) - 8 * |m.lines| <= db.budget
  {
    var out := [];
    for i := 0 to |m.lines|
      invariant Progress(old(db.balances), m, i, db.balances, out)
      invariant db.locked == LockRows(old(db.locked), RowsOfLines(m, m.lines[..i]))
      invariant old(db.budget) - 8 * i <= db.budget
    {
      ProgressStep(old(db.balances), m, i, db.balances, out);
      var src := Key(m.tenant, m.source.value, m.lines[i].product);
      var dst := Key(m.tenant, m.destination.value, m.lines[i].product);
      assert LineRows(m, m.lines[i].product) == [dst, src];
      var c := MoveLine(db, src, dst, m.lines[i].quantity);
      LocksStep(old(db.locked), m, m.lines, i, db.locked);
      if c.Failure? {
        return c;
      }
      out := out + c.value;
    }
    assert m.lines[..|m.lines|] == m.lines;
    LockedAll(old(db.locked), RowsOfLines(m, m.lines));
    return Success(out);
  }

  /** A line of an adjustment raises the destination only when no source is named. */
  method AdjustLine(db: Database, m: Movement, line: Line) returns (r: Result<seq<Change>>)
    requires WarehousesOk(m) && m.kind == Adjustment && InRange(db.balances) && 0 < line.quantity <= MAX_INT32
    modifies db`budget, db`balances, db`locked
    ensures LockedSome(old(db.locked), LineRows(m, line.product), db.locked)
    ensures r.Success? ==> db.locked == LockRows(old(db.locked), LineRows(m, line.product))
    ensures r != Failure(Fault) ==> Applies(r, Stock.ApplyLine(old(db.balances), m, line), db.balances)
    ensures r == Failure(Fault) ==> db.budget == 0
    ensures old(db.budget) - 4 <= db.budget
  {
    if m.destination.Some? && m.source.None? {
      var k := Key(m.tenant, m.destination.value, line.product);
      assert LineRows(m, line.product) == [k];
      r := RaiseLine(db, k, line.quantity);
    } else {
      var k := Key(m.tenant, m.source.value, line.product);
      assert LineRows(m, line.product) == [k];
      r := LowerLine(db, k, line.quantity);
    }
  }

  method ApplyAdjustment(db: Database, m: Movement) returns (r: Result<seq<Change>>)
    requires MovementOk(m) && InRange(db.balances) && m.kind == Adjustment
    modifies db`budget, db`balances, db`locked
    ensures r != Failure(Fault) ==> Applies(r, Stock.ApplyStock(old(db.balances), m), db.balances)
    ensures LockedSome(old(db.locked), RowsOfLines(m, m.lines), db.locked)
    ensures r.Success? ==> db.locked == LockRows(old(db.locked), RowsOfLines(m, m.lines))
    ensures r == Failure(Fault) ==> db.budget == 0
    ensures old(db.budget) - 4 * |m.lines| <= db.budget
  {
    var out := [];
    for i := 0 to |m.lines|
      invariant Progress(old(db.balances), m, i, db.balances, out)
      invariant db.locked == LockRows(old(db.locked), RowsOfLines(m, m.lines[..i]))
      invariant old(db.budget) - 4 * i <= db.budget
    {
      ProgressStep(old(db.balances), m, i, db.balances, out);
      var c := AdjustLine(db, m, m.lines[i]);
      LocksStep(old(db.locked), m, m.lines, i, db.locked);
      if c.Failure? {
        return c;
      }
      out := out + c.value;
    }
    assert m.lines[..|m.lines|] == m.lines;
    LockedAll(old(db.locked), RowsOfLines(m, m.lines));
    return Success(out);
  }

  method ApplyStock(db: Database, m: Movement) returns (r: Result<seq<Change>>)
    requires MovementOk(m) && InRange(db.balances)
    modifies db`budget, db`balances, db`locked
    ensures r != Failure(Fault) ==> Applies(r, Stock.ApplyStock(old(db.balances), m), db.balances)
    ensures LockedSome(old(db.locked), RowsOfLines(m, m.lines), db.locked)
    ensures r.Success? ==> db.locked == LockRows(old(db.locked), RowsOfLines(m, m.lines))
    ensures r == Failure(Fault) ==> db.budget == 0
    ensures old(db.budget) - 8 * |m.lines| <= db.budget
  {
    match m.kind
    case Inbound => r := ApplyInbound(db, m);
    case Outbound => r := ApplyOutbound(db, m);
    case Transfer => r := ApplyTransfer(db, m);
    case Adjustment => r := ApplyAdjustment(db, m);
  }
}
