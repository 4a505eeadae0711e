/** When a create is accepted and what it stores, said of the request and the tables. */
module Creates {
  import opened Common
  import opened Schema
  import opened Text
  import opened MovementRepository
  import opened Effects

  /** The texts of a create fit their columns. Nothing checks this before the table does. */
  predicate TextsFit(input: CreateInput) {
    && FitsColumn(TrimSpace(input.reference), MAX_REFERENCE)
    && Storable(TrimSpace(input.idempotencyKey)) && Storable(TrimSpace(input.notes))
  }

  /** The texts of the lines do. */
  predicate LineNotesFit(input: CreateInput) {
    forall i :: 0 <= i < |input.lines| ==> Storable(NotesOf(input, i))
  }

  predicate Given(w: Option<Id>) {
    w.Some? && w.value != ""
  }

  /** The warehouses that a movement of its kind names. */
  predicate ShapeOk(input: CreateInput) {
    match input.kind
    case Inbound => !Given(input.source) && Given(input.destination)
    case Outbound => Given(input.source) && !Given(input.destination)
    case Transfer => Given(input.source) && Given(input.destination) && input.source != input.destination
    case Adjustment => (Given(input.source) && !Given(input.destination))
                       || (!Given(input.source) && Given(input.destination))
  }

  /** What is checked on the request before anything is asked of the database. */
  predicate InOrder(input: CreateInput) {
    var key, hash := TrimSpace(input.idempotencyKey), TrimSpace(ToLower(input.requestHash));
    && 0 < |key| <= 255 && |hash| == 64 && (forall c <- hash :: '0' <= c <= '9' || 'a' <= c <= 'f')
    && ShapeOk(input) && TrimSpace(input.reference) != "" && input.lines != []
  }

  ghost predicate BadLine(lines: seq<Line>) {
    exists i :: 0 <= i < |lines| && (lines[i].product == "" || lines[i].quantity <= 0)
  }

  /** The movement that has the key of the request. */
  ghost predicate HasItsKey(ms: map<Id, Movement>, input: CreateInput, o: Id) {
    && o in ms && ms[o].tenant == input.tenant && TrimSpace(input.idempotencyKey) != ""
    && ms[o].idempotencyKey == Some(TrimSpace(input.idempotencyKey))
  }

  /** The movement was created by a request with the same body. */
  predicate SameBody(m: Movement, input: CreateInput) {
    m.requestHash.Some? && TrimSpace(ToLower(m.requestHash.value)) == TrimSpace(ToLower(input.requestHash))
  }

  ghost predicate ReferenceTaken(ms: map<Id, Movement>, id: Id, input: CreateInput) {
    id in ms || exists o :: o in ms && ms[o].tenant == input.tenant && ms[o].reference == TrimSpace(input.reference)
  }

  /** What the table answers to a header that its columns hold. */
  lemma DecideMeans(ms: map<Id, Movement>, id: Id, input: CreateInput)
    requires Unique(ms) && HeaderOk(input) && |TrimSpace(ToLower(input.requestHash))| == 64
    ensures forall o :: HasItsKey(ms, input, o) ==>
              Decide(ms, id, input) == if SameBody(ms[o], input) then Replay(o) else Refuse(IdempotencyConflict)
    ensures (forall o :: !HasItsKey(ms, input, o)) ==>
              Decide(ms, id, input) == if ReferenceTaken(ms, id, input) then Refuse(Conflict) else Insert
  {
    var key := TrimSpace(input.idempotencyKey);
    if o :| HasItsKey(ms, input, o) {
      assert HasKey(ms, input.tenant, key);
      forall p | HasItsKey(ms, input, p)
        ensures p == o
      {
      }
      DecideOnKey(ms, id, input, o);
    } else {
      assert !HasKey(ms, input.tenant, key) by {
        forall p <- ms ensures !(key != "" && ms[p].tenant == input.tenant && ms[p].idempotencyKey == Some(key)) {
          assert !HasItsKey(ms, input, p);
        }
      }
      assert Duplicates(ms, id, input) <==> ReferenceTaken(ms, id, input);
    }
  }

  /** The answer to a create that is accepted: the movement that has its key and was created by the same body, or a new
      one that holds what the request says. */
  ghost predicate Answered(before: map<Id, Movement>, after: map<Id, Movement>, id: Id, input: CreateInput,
      m: Movement) {
    && TextsFit(input)
    && if exists o :: HasItsKey(before, input, o)
       then after == before && exists o :: HasItsKey(before, input, o) && SameBody(before[o], input) && m == before[o]
       else
         && !ReferenceTaken(before, id, input) && LineNotesFit(input)
         && Adds(before, after, id, input, |input.lines|) && m == after[id]
  }

  ghost predicate Accepted(before: map<Id, Movement>, after: map<Id, Movement>, warehouses: map<Id, Warehouse>,
      member: bool, id: Id, input: CreateInput, m: Movement) {
    && InOrder(input) && member && !BadLine(input.lines)
    && Usable(warehouses, input.tenant, input.source) && Usable(warehouses, input.tenant, input.destination)
    && Answered(before, after, id, input, m)
  }

  /** Why the tables refuse a create. */
  ghost predicate TablesRefuse(ms: map<Id, Movement>, id: Id, input: CreateInput, e: Error) {
    if !TextsFit(input) then e == Constraint
    else if exists o :: HasItsKey(ms, input, o) then
      e == IdempotencyConflict && forall o :: HasItsKey(ms, input, o) ==> !SameBody(ms[o], input)
    else if ReferenceTaken(ms, id, input) then e == Conflict
    else e == Constraint && !LineNotesFit(input)
  }

  /** Why what a create names is refused. Which line is found wrong first depends on the cache. */
  ghost predicate NamesRefused(warehouses: map<Id, Warehouse>, products: map<Id, Product>, member: bool,
      input: CreateInput, e: Error) {
    if !member then e == Forbidden
    else if !Usable(warehouses, input.tenant, input.source) then
      e == if Present(warehouses, input.tenant, input.source) then Validation else NotFound
    else if !Usable(warehouses, input.tenant, input.destination) then
      e == if Present(warehouses, input.tenant, input.destination) then Validation else NotFound
    else
      || (e == Validation && BadLine(input.lines))
      || (e == NotFound && ProductGone(products, input.tenant, input.lines))
  }

  /** Why a create is refused. The tables are asked only when all it names is in order. */
  ghost predicate CreateRefused(ms: map<Id, Movement>, warehouses: map<Id, Warehouse>, products: map<Id, Product>,
      member: bool, id: Id, input: CreateInput, e: Error) {
    if !InOrder(input) then e == Validation
    else
      || NamesRefused(warehouses, products, member, input, e)
      || (member && !BadLine(input.lines) && TablesRefuse(ms, id, input, e)
          && Usable(warehouses, input.tenant, input.source) && Usable(warehouses, input.tenant, input.destination))
  }
}
