/** What the stock repository and applyStock compute, as functions of the balance table.
    The methods of StockRepository and StockApply are proved against these. */
module Stock {
  import opened Common
  import opened Schema

  /** The balance table after some lines, and the changes recorded on the way. */
  datatype Applied = Applied(balances: Balances, changes: seq<Change>)

  function EnsureRow(b: Balances, k: Key): Balances {
    if k in b then b else b[k := 0]
  }

  /** applyQuantity: the new quantity is refused when negative or beyond int32. */
  function SetQuantity(b: Balances, k: Key, quantity: int): Result<Balances> {
    if quantity < 0 then Failure(Insufficient)
    else if quantity > MAX_INT32 then Failure(Validation)
    else Success(b[k := quantity])
  }

  function ApplyDelta(b: Balances, k: Key, delta: int): Result<Balances> {
    if k !in b then Failure(NotFound) else SetQuantity(b, k, Wrap64(b[k] + delta))
  }

  function TransferDelta(b: Balances, src: Key, dst: Key, quantity: int): Result<Balances> {
    if quantity <= 0 then Failure(Validation)
    else if src.warehouse == dst.warehouse then Success(b)
    else if src !in b || dst !in b then Failure(NotFound)
    else
      var lowered :- SetQuantity(b, src, Wrap64(b[src] - quantity));
      SetQuantity(lowered, dst, Wrap64(b[dst] + quantity))
  }

  function MapNotFound<T>(r: Result<T>): Result<T> {
    if r == Failure(NotFound) then Failure(Insufficient) else r
  }

  /** One line that raises a balance, creating the row when it is missing. */
  function Raise(b: Balances, k: Key, quantity: int): Result<Applied> {
    var ensured := EnsureRow(b, k);
    var raised :- ApplyDelta(ensured, k, quantity);
    Success(Applied(raised, [Change(k, ensured[k], ensured[k] + quantity)]))
  }

  /** One line that lowers a balance. */
  function Lower(b: Balances, k: Key, quantity: int): Result<Applied> {
    var lowered :- MapNotFound(ApplyDelta(b, k, -quantity));
    Success(Applied(lowered, [Change(k, b[k], b[k] - quantity)]))
  }

  /** One line that moves quantity from `src` to `dst`. */
  function Move(b: Balances, src: Key, dst: Key, quantity: int): Result<Applied>
    requires src.warehouse != dst.warehouse
  {
    var ensured := EnsureRow(b, dst);
    var moved :- MapNotFound(TransferDelta(ensured, src, dst, quantity));
    Success(Applied(moved,
                    [Change(src, ensured[src], ensured[src] - quantity),
                     Change(dst, ensured[dst], ensured[dst] + quantity)]))
  }

  /** The warehouse whose balances a movement raises. */
  function RaisedAt(m: Movement): Option<Id> {
    match m.kind
    case Inbound => m.destination
    case Outbound => None
    case Transfer => m.destination
    case Adjustment => if m.source.None? then m.destination else None
  }

  /** The warehouse whose balances a movement lowers. */
  function LoweredAt(m: Movement): Option<Id> {
    match m.kind
    case Inbound => None
    case Outbound => m.source
    case Transfer => m.source
    case Adjustment => m.source
  }

  function ApplyLine(b: Balances, m: Movement, line: Line): Result<Applied>
    requires WarehousesOk(m)
  {
    match (LoweredAt(m), RaisedAt(m))
    case (None, Some(dst)) => Raise(b, Key(m.tenant, dst, line.product), line.quantity)
    case (Some(src), None) => Lower(b, Key(m.tenant, src, line.product), line.quantity)
    case (Some(src), Some(dst)) =>
      Move(b, Key(m.tenant, src, line.product), Key(m.tenant, dst, line.product), line.quantity)
  }

  /** The lines in order, stopping at the first one that fails. */
  function ApplyLines(b: Balances, m: Movement, lines: seq<Line>): Result<Applied>
    requires WarehousesOk(m)
  {
    if lines == [] then Success(Applied(b, []))
    else
      var before :- ApplyLines(b, m, lines[..|lines| - 1]);
      var last :- ApplyLine(before.balances, m, lines[|lines| - 1]);
      Success(Applied(last.balances, before.changes + last.changes))
  }

  function ApplyStock(b: Balances, m: Movement): Result<Applied>
    requires WarehousesOk(m)
  {
    ApplyLines(b, m, m.lines)
  }
}
