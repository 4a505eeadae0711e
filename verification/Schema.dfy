/** The rows of the inventory database that the model keeps. Identifiers are the UUID strings the
    code passes around, already trimmed. */
module Schema {
  import opened Common

  type Id = string

  /** The unique key of stock_balances; a balance table maps it to `quantity`. */
  datatype Key = Key(tenant: Id, warehouse: Id, product: Id)

  type Balances = map<Key, int>

  datatype MovementType = Inbound | Outbound | Transfer | Adjustment

  datatype Status = Draft | Confirmed | Cancelled

  datatype Line = Line(product: Id, quantity: int)

  datatype Movement = Movement(
    id: Id,
    tenant: Id,
    kind: MovementType,
    reference: string,
    source: Option<Id>,
    destination: Option<Id>,
    status: Status,
    idempotencyKey: Option<string>,
    requestHash: Option<string>,
    lines: seq<Line>)

  /** One recorded quantity change of a balance row. */
  datatype Change = Change(key: Key, oldQty: int, newQty: int)

  datatype Event =
    | MovementCreated(tenant: Id, movement: Id, kind: MovementType, reference: string, lineCount: nat)
    | StockChanged(movement: Id, change: Change)
    | StockBelowThreshold(key: Key, currentQty: int, reorderLevel: int)

  datatype OutboxRow = OutboxRow(tenant: Id, aggregate: Id, event: Event, published: bool)

  /** An outbox row with the id the sequence gave it; in the stream inventory.events the id stands for the event id
      `outbox:<id>`. */
  datatype Row = Row(id: nat, event: Event)

  datatype AuditRow = AuditRow(tenant: Id, movement: Id, before: Status, after: Status, lineCount: nat)

  datatype Product = Product(
    tenant: Id,
    sku: string,
    name: string,
    category: Option<Id>,
    reorderLevel: int,
    deleted: bool)

  datatype Warehouse = Warehouse(tenant: Id, code: string, name: string, active: bool, deleted: bool)

  /** quantity INT NOT NULL CHECK (quantity >= 0). */
  ghost predicate InRange(b: Balances) {
    forall k <- b :: 0 <= b[k] <= MAX_INT32
  }

  /** quantity INT NOT NULL CHECK (quantity > 0), for every line. */
  ghost predicate LinesOk(lines: seq<Line>) {
    forall i :: 0 <= i < |lines| ==> 0 < lines[i].quantity <= MAX_INT32
  }

  /** CONSTRAINT chk_movement_warehouses. Unlike the create-time validation it lets an adjustment
      name both warehouses. */
  predicate WarehousesOk(m: Movement) {
    match m.kind
    case Inbound => m.source.None? && m.destination.Some?
    case Outbound => m.source.Some? && m.destination.None?
    case Transfer => m.source.Some? && m.destination.Some? && m.source != m.destination
    case Adjustment => m.source.Some? || m.destination.Some?
  }

  /** A movement row together with its lines as the constraints of the database allow them. */
  ghost predicate MovementOk(m: Movement) {
    WarehousesOk(m) && LinesOk(m.lines)
  }

  /** The quantity of a balance row, a missing row counting as zero. */
  function Quantity(b: Balances, k: Key): int {
    if k in b then b[k] else 0
  }
}
