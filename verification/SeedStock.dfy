/** The seeder's own implementation of stock application
    (infra/database/cmd/seed/service/movements_seed.go) and its agreement with applyStock. */
module SeedStock {
  import opened Common
  import opened Schema
  import opened Store
  import opened Stock
  import opened StockLaws
  import opened StockRepository

  /** stockDelta. The seeder has no overflow check of its own: the INT column refuses the value. */
  function SeedDelta(b: Balances, k: Key, delta: int): Result<Balances> {
    if k !in b then
      if delta < 0 then Failure(Insufficient)
      else if delta > MAX_INT32 then Failure(Validation)
      else Success(b[k := delta])
    else
      var quantity := Wrap64(b[k] + delta);
      if quantity < 0 then Failure(Insufficient)
      else if quantity > MAX_INT32 then Failure(Validation)
      else Success(b[k := quantity])
  }

  function SeedLine(b: Balances, m: Movement, line: Line): Result<Balances>
    requires WarehousesOk(m)
  {
    match m.kind
    case Inbound => SeedDelta(b, Key(m.tenant, m.destination.value, line.product), line.quantity)
    case Outbound => SeedDelta(b, Key(m.tenant, m.source.value, line.product), -line.quantity)
    case Transfer =>
      var lowered :- SeedDelta(b, Key(m.tenant, m.source.value, line.product), -line.quantity);
      SeedDelta(lowered, Key(m.tenant, m.destination.value, line.product), line.quantity)
    case Adjustment =>
      if m.destination.Some? && m.source.None? then
        SeedDelta(b, Key(m.tenant, m.destination.value, line.product), line.quantity)
      else if m.source.Some? && m.destination.None? then
        SeedDelta(b, Key(m.tenant, m.source.value, line.product), -line.quantity)
      else Failure(Validation)
  }

  function SeedLines(b: Balances, m: Movement, lines: seq<Line>): Result<Balances>
    requires WarehousesOk(m)
  {
    if lines == [] then Success(b)
    else
      var before :- SeedLines(b, m, lines[..|lines| - 1]);
      SeedLine(before, m, lines[|lines| - 1])
  }

  // ---- The seeder's methods ------------------------------------------------------------------

  method StockDelta(db: Database, k: Key, delta: int) returns (r: Result<()>)
    requires MIN_INT64 <= delta <= MAX_INT64
    modifies db`budget, db`balances, db`locked
    ensures r != Failure(Fault) ==> Agrees(r, SeedDelta(old(db.balances), k, delta), db.balances)
    ensures r == Failure(Fault) ==> db.budget == 0
    ensures old(db.budget) - 2 <= db.budget
  {
    var row := GetForUpdate(db, k);
    if row == Failure(NotFound) {
      if delta < 0 {
        return Failure(Insufficient);
      }
      r := WriteColumn(db, k, delta);
    } else if row.Failure? {
      return Failure(row.error);
    } else {
      var quantity := Wrap64(row.value + delta);
      if quantity < 0 {
        return Failure(Insufficient);
      }
      r := WriteColumn(db, k, quantity);
    }
  }

  /** INSERT or UPDATE of the quantity column, which is a 32-bit INT. */
  method WriteColumn(db: Database, k: Key, quantity: int) returns (r: Result<()>)
    requires quantity >= 0
    modifies db`budget, db`balances, db`locked
    ensures db.budget == if old(db.budget) == 0 then 0 else old(db.budget) - 1
    ensures r == if old(db.budget) == 0 then Failure(Fault)
                 else if quantity > MAX_INT32 then Failure(Validation)
                 else Success(())
    ensures db.balances == if r.Success? then old(db.balances)[k := quantity] else old(db.balances)
  {
    var ok := db.Statement();
    if !ok {
      return Failure(Fault);
    }
    if quantity > MAX_INT32 {
      return Failure(Validation);
    }
    db.balances := db.balances[k := quantity];
    return Success(());
  }

  method ApplySeedLine(db: Database, m: Movement, line: Line) returns (r: Result<()>)
    requires WarehousesOk(m) && 0 < line.quantity <= MAX_INT32
    modifies db`budget, db`balances, db`locked
    ensures r != Failure(Fault) ==> Agrees(r, SeedLine(old(db.balances), m, line), db.balances)
    ensures r == Failure(Fault) ==> db.budget == 0
    ensures old(db.budget) - 4 <= db.budget
  {
    var p, q := line.product, line.quantity;
    match m.kind
    case Inbound =>
      r := StockDelta(db, Key(m.tenant, m.destination.value, p), q);
    case Outbound =>
      r := StockDelta(db, Key(m.tenant, m.source.value, p), -q);
    case Transfer =>
      r := StockDelta(db, Key(m.tenant, m.source.value, p), -q);
      if r.Success? {
        r := StockDelta(db, Key(m.tenant, m.destination.value, p), q);
      }
    case Adjustment =>
      if m.destination.Some? && m.source.None? {
        r := StockDelta(db, Key(m.tenant, m.destination.value, p), q);
      } else if m.source.Some? && m.destination.None? {
        r := StockDelta(db, Key(m.tenant, m.source.value, p), -q);
      } else {
        r := Failure(Validation);
      }
  }

  method ApplyConfirmedStock(db: Database, m: Movement) returns (r: Result<()>)
    requires MovementOk(m)
    modifies db`budget, db`balances, db`locked
    ensures r != Failure(Fault) ==> Agrees(r, SeedLines(old(db.balances), m, m.lines), db.balances)
    ensures r == Failure(Fault) ==> db.budget == 0
    ensures old(db.budget) - 4 * |m.lines| <= db.budget
  {
    for i := 0 to |m.lines|
      invariant SeedLines(old(db.balances), m, m.lines[..i]) == Success(db.balances)
      invariant old(db.budget) - 4 * i <= db.budget
    {
      assert m.lines[..i + 1][..i] == m.lines[..i];
      r := ApplySeedLine(db, m, m.lines[i]);
      if r.Failure? {
        if r != Failure(Fault) {
          SeedFailsFrom(old(db.balances), m, m.lines, i + 1, r.error);
        }
        return;
      }
    }
    assert m.lines[..|m.lines|] == m.lines;
    return Success(());
  }

  lemma {:induction false} SeedFailsFrom(b: Balances, m: Movement, lines: seq<Line>, i: nat, e: Error)
    requires WarehousesOk(m) && i <= |lines| && SeedLines(b, m, lines[..i]) == Failure(e)
    ensures SeedLines(b, m, lines) == Failure(e)
    decreases |lines|
  {
    if i == |lines| {
      assert lines[..i] == lines;
    } else {
      var n := |lines| - 1;
      assert lines[..n][..i] == lines[..i];
      SeedFailsFrom(b, m, lines[..n], i, e);
    }
  }

  // ---- Agreement with applyStock ------------------------------------------------------------------

  /** Both implementations refuse the lines, or both accept them and leave the same table. */
  ghost predicate SameOutcome(b: Balances, m: Movement, lines: seq<Line>)
    requires WarehousesOk(m)
  {
    match ApplyLines(b, m, lines)
    case Success(a) => SeedLines(b, m, lines) == Success(a.balances)
    case Failure(_) => SeedLines(b, m, lines).Failure?
  }

  /** The one kind of row the DDL admits and the create-time validation does not. */
  predicate NamesBothWarehouses(m: Movement) {
    m.kind == Adjustment && m.source.Some? && m.destination.Some?
  }

  lemma SameLine(b: Balances, m: Movement, line: Line)
    requires WarehousesOk(m) && InRange(b) && 0 < line.quantity <= MAX_INT32 && !NamesBothWarehouses(m)
    ensures ApplyLine(b, m, line).Success? <==> SeedLine(b, m, line).Success?
    ensures ApplyLine(b, m, line).Success? ==>
              SeedLine(b, m, line).value == ApplyLine(b, m, line).value.balances
  {
    match (LoweredAt(m), RaisedAt(m))
    case (None, Some(dst)) => RaiseExact(b, Key(m.tenant, dst, line.product), line.quantity);
    case (Some(src), None) => LowerExact(b, Key(m.tenant, src, line.product), line.quantity);
    case (Some(src), Some(dst)) =>
      SameMove(b, Key(m.tenant, src, line.product), Key(m.tenant, dst, line.product), line.quantity);
  }

  lemma SameMove(b: Balances, src: Key, dst: Key, q: int)
    requires InRange(b) && 0 < q <= MAX_INT32 && src.warehouse != dst.warehouse
    ensures var lowered := SeedDelta(b, src, -q);
            var moved := Move(b, src, dst, q);
            && (moved.Success? <==> lowered.Success? && SeedDelta(lowered.value, dst, q).Success?)
            && (moved.Success? ==> SeedDelta(lowered.value, dst, q) == Success(moved.value.balances))
  {
    MoveExact(b, src, dst, q);
  }

  lemma {:induction false} SameLines(b: Balances, m: Movement, lines: seq<Line>)
    requires WarehousesOk(m) && InRange(b) && LinesOk(lines) && !NamesBothWarehouses(m)
    ensures SameOutcome(b, m, lines)
  {
    if lines == [] {
    } else {
      var n := |lines| - 1;
      SameLines(b, m, lines[..n]);
      if ApplyLines(b, m, lines[..n]).Success? {
        ApplyLinesExact(b, m, lines[..n]);
        SameLine(ApplyLines(b, m, lines[..n]).value.balances, m, lines[n]);
      }
    }
  }

  lemma {:induction false} SeedRefusesBoth(b: Balances, m: Movement, lines: seq<Line>)
    requires WarehousesOk(m) && NamesBothWarehouses(m)
    ensures SeedLines(b, m, lines).Success? <==> lines == []
  {
    if lines == [] {
    } else {
      SeedRefusesBoth(b, m, lines[..|lines| - 1]);
    }
  }

  /** The two implementations have the same outcome on every starting table exactly when the movement is not
      an adjustment naming both warehouses (with lines some table could satisfy): there the seeder
      reports an error and applyStock lowers the source. */
  lemma SeedAgreesExactly(m: Movement)
    requires MovementOk(m)
    ensures (forall b :: InRange(b) ==> SameOutcome(b, m, m.lines)) <==>
            !(NamesBothWarehouses(m) && m.lines != []
              && forall p :: Names(m.lines, p) ==> Total(m.lines, p) <= MAX_INT32)
  {
    if !NamesBothWarehouses(m) {
      forall b | InRange(b) ensures SameOutcome(b, m, m.lines) { SameLines(b, m, m.lines); }
    } else {
      forall b | InRange(b)
        ensures SameOutcome(b, m, m.lines) <==> m.lines == [] || !Fits(b, m, m.lines)
      {
        ApplyLinesExact(b, m, m.lines);
        SeedRefusesBoth(b, m, m.lines);
      }
      var products := set i | 0 <= i < |m.lines| :: m.lines[i].product;
      var keys := set p <- products :: Key(m.tenant, m.source.value, p);
      var full := map k <- keys :: MAX_INT32;
      assert InRange(full);
      forall p | Names(m.lines, p)
        ensures Quantity(full, Key(m.tenant, m.source.value, p)) == MAX_INT32
      {
        assert p in products;
        assert Key(m.tenant, m.source.value, p) in keys;
      }
      assert Fits(full, m, m.lines) <==> forall p :: Names(m.lines, p) ==> Total(m.lines, p) <= MAX_INT32;
      if !Fits(full, m, m.lines) {
        forall b | InRange(b) ensures !Fits(b, m, m.lines) { FitsNowhere(b, full, m); }
      }
    }
  }

  lemma FitsNowhere(b: Balances, full: Balances, m: Movement)
    requires InRange(b) && MovementOk(m) && NamesBothWarehouses(m) && !Fits(full, m, m.lines)
    requires forall p :: Names(m.lines, p) ==> Quantity(full, Key(m.tenant, m.source.value, p)) == MAX_INT32
    ensures !Fits(b, m, m.lines)
  {
    var p :| Names(m.lines, p) && Total(m.lines, p) > MAX_INT32;
    assert Quantity(b, Key(m.tenant, m.source.value, p)) <= MAX_INT32;
  }

  // ---- Whole scenarios ---------------------------------------------------------------------------------

  ghost predicate AllWarehousesOk(ms: seq<Movement>) {
    forall i :: 0 <= i < |ms| ==> WarehousesOk(ms[i])
  }

  ghost function DomainRun(b: Balances, ms: seq<Movement>): Result<Balances>
    requires AllWarehousesOk(ms)
  {
    if ms == [] then Success(b)
    else
      var before :- DomainRun(b, ms[..|ms| - 1]);
      var a :- ApplyStock(before, ms[|ms| - 1]);
      Success(a.balances)
  }

  ghost function SeedRun(b: Balances, ms: seq<Movement>): Result<Balances>
    requires AllWarehousesOk(ms)
  {
    if ms == [] then Success(b)
    else
      var before :- SeedRun(b, ms[..|ms| - 1]);
      SeedLines(before, ms[|ms| - 1], ms[|ms| - 1].lines)
  }

  /** Replaying any scenario of movements that pass the create-time validation, from any table, the seeder
      and the domain both fail or leave the same balances. */
  lemma {:induction false} SeedRunAgrees(b: Balances, ms: seq<Movement>)
    requires InRange(b) && AllWarehousesOk(ms)
    requires forall i :: 0 <= i < |ms| ==> LinesOk(ms[i].lines) && !NamesBothWarehouses(ms[i])
    ensures DomainRun(b, ms).Success? <==> SeedRun(b, ms).Success?
    ensures DomainRun(b, ms).Success? ==>
              DomainRun(b, ms).value == SeedRun(b, ms).value && InRange(DomainRun(b, ms).value)
  {
    if ms == [] {
    } else {
      var n := |ms| - 1;
      SeedRunAgrees(b, ms[..n]);
      if DomainRun(b, ms[..n]).Success? {
        var before := DomainRun(b, ms[..n]).value;
        SameLines(before, ms[n], ms[n].lines);
        ApplyLinesExact(before, ms[n], ms[n].lines);
      }
    }
  }
}
