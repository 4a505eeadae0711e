/** The movements tables (services/inventory/domains/movement/repository/repository.go). */
module MovementRepository {
  import opened Common
  import opened Schema
  import opened Store
  import opened Text

  datatype CreateInput = CreateInput(
    tenant: Id,
    kind: MovementType,
    reference: string,
    source: Option<Id>,
    destination: Option<Id>,
    idempotencyKey: string,
    requestHash: string,
    notes: string,
    lines: seq<Line>,
    lineNotes: seq<string>)

  /** The notes of line `i`; a line without notes has none. */
  function NotesOf(input: CreateInput, i: nat): string {
    if i < |input.lineNotes| then TrimSpace(input.lineNotes[i]) else ""
  }

  function NonEmpty(s: string): Option<string> {
    if s == "" then None else Some(s)
  }

  /** The draft row of an input with the first lines already inserted. */
  function Draft(id: Id, input: CreateInput, lines: seq<Line>): Movement {
    Movement(id, input.tenant, input.kind, TrimSpace(input.reference), input.source, input.destination, Status.Draft,
             NonEmpty(TrimSpace(input.idempotencyKey)), NonEmpty(NormalizeHash(input.requestHash)), lines)
  }

  /** uq_movements_tenant_ref, uq_movements_idempotency (NULL keys never collide) or the primary key. */
  ghost predicate Duplicates(ms: map<Id, Movement>, id: Id, input: CreateInput) {
    || id in ms
    || (exists o <- ms :: ms[o].tenant == input.tenant && ms[o].reference == TrimSpace(input.reference))
    || HasKey(ms, input.tenant, TrimSpace(input.idempotencyKey))
  }

  ghost predicate HasKey(ms: map<Id, Movement>, tenant: Id, key: string) {
    key != "" && exists o <- ms :: ms[o].tenant == tenant && ms[o].idempotencyKey == Some(key)
  }

  /** Rows carry their own id, and no two share a tenant's reference or idempotency key. */
  ghost predicate Unique(ms: map<Id, Movement>) {
    && (forall a <- ms :: ms[a].id == a)
    && (forall a <- ms, b <- ms :: a != b && ms[a].tenant == ms[b].tenant ==>
          ms[a].reference != ms[b].reference
          && (ms[a].idempotencyKey.Some? ==> ms[a].idempotencyKey != ms[b].idempotencyKey))
  }

  predicate HashesMatch(stored: Option<string>, want: string) {
    && |want| == 64
    && stored.Some?
    && |NormalizeHash(stored.value)| == 64
    && NormalizeHash(stored.value) == want
  }

  const MAX_REFERENCE := 100
  const MAX_KEY := 255
  const MAX_HASH := 64

  /** What the columns can hold and chk_movement_warehouses admits. PostgreSQL looks at this before any unique
      constraint. */
  predicate HeaderOk(input: CreateInput) {
    && FitsColumn(TrimSpace(input.reference), MAX_REFERENCE)
    && FitsColumn(TrimSpace(input.idempotencyKey), MAX_KEY)
    && FitsColumn(NormalizeHash(input.requestHash), MAX_HASH)
    && Storable(TrimSpace(input.notes))
    && WarehousesOk(Draft("", input, []))
  }

  /** What the columns of movement_lines can hold. */
  predicate LineOk(input: CreateInput, i: nat)
    requires i < |input.lines|
  {
    0 < input.lines[i].quantity <= MAX_INT32 && Storable(NotesOf(input, i))
  }

  /** The INSERT of line `n` was refused, and the header and the lines before it stay. */
  ghost predicate StoppedAt(before: map<Id, Movement>, after: map<Id, Movement>, id: Id, input: CreateInput, n: nat) {
    && n < |input.lines| && !LineOk(input, n) && (forall i :: 0 <= i < n ==> LineOk(input, i))
    && Partial(before, after, id, input, n)
  }

  /** What the table and handleCreateDuplicate answer to a create. */
  datatype Decision = Insert | Replay(id: Id) | Refuse(error: Error)

  ghost function Decide(ms: map<Id, Movement>, id: Id, input: CreateInput): Decision {
    if !HeaderOk(input) then Refuse(Constraint)
    else if !Duplicates(ms, id, input) then Insert
    else if HasKey(ms, input.tenant, TrimSpace(input.idempotencyKey)) then
      var holder :| holder in ms && ms[holder].tenant == input.tenant
                    && ms[holder].idempotencyKey == Some(TrimSpace(input.idempotencyKey));
      if HashesMatch(ms[holder].requestHash, NormalizeHash(input.requestHash)) then Replay(holder)
      else Refuse(IdempotencyConflict)
    else Refuse(Conflict)
  }

  // ---- Methods ---------------------------------------------------------------------------------

  /** The two reads behind a movement: its header, locked when `GetByIDForUpdate`, and its lines. */
  method GetByID(db: Database, tenant: Id, id: Id) returns (r: Result<Movement>)
    modifies db`budget
    ensures r == Failure(Fault) ==> db.budget == 0
    ensures r != Failure(Fault) ==>
              r == if id in db.movements && db.movements[id].tenant == tenant
                   then Success(db.movements[id]) else Failure(NotFound)
    ensures old(db.budget) - 2 <= db.budget
  {
    var ok := db.Statement();
    if !ok {
      return Failure(Fault);
    }
    if id !in db.movements || db.movements[id].tenant != tenant {
      return Failure(NotFound);
    }
    ok := db.Statement();
    if !ok {
      return Failure(Fault);
    }
    return Success(db.movements[id]);
  }

  method GetByTenantAndIdempotencyKey(db: Database, tenant: Id, key: string) returns (r: Result<Movement>)
    requires Unique(db.movements)
    modifies db`budget
    ensures r == Failure(Fault) ==> db.budget == 0
    ensures r == Failure(NotFound) ==> !HasKey(db.movements, tenant, key)
    ensures r.Failure? ==> r.error in {NotFound, Fault}
    ensures r.Success? ==>
              && r.value.id in db.movements && r.value == db.movements[r.value.id]
              && r.value.tenant == tenant && r.value.idempotencyKey == Some(key) && key != ""
    ensures old(db.budget) - 3 <= db.budget
  {
    if key == "" {
      return Failure(NotFound);
    }
    var ok := db.Statement();
    if !ok {
      return Failure(Fault);
    }
    var rows := set o <- db.movements | db.movements[o].tenant == tenant && db.movements[o].idempotencyKey == Some(key);
    if rows == {} {
      assert forall o <- db.movements :: db.movements[o].tenant == tenant && db.movements[o].idempotencyKey == Some(key)
                                         ==> o in rows;
      return Failure(NotFound);
    }
    var id :| id in rows;
    r := GetByID(db, tenant, id);
  }

  method HandleCreateDuplicate(db: Database, id: Id, input: CreateInput) returns (r: Result<(Movement, bool)>)
    requires Unique(db.movements) && HeaderOk(input) && Duplicates(db.movements, id, input)
    modifies db`budget
    ensures r == Failure(Fault) ==> db.budget == 0
    ensures r != Failure(Fault) ==> Answers(r, Decide(db.movements, id, input), db.movements)
    ensures old(db.budget) - 3 <= db.budget
  {
    var key := TrimSpace(input.idempotencyKey);
    if key != "" {
      var existing := GetByTenantAndIdempotencyKey(db, input.tenant, key);
      if existing.Success? {
        if HashesMatch(existing.value.requestHash, NormalizeHash(input.requestHash)) {
          return Success((existing.value, true));
        }
        return Failure(IdempotencyConflict);
      }
      if existing != Failure(NotFound) {
        return Failure(existing.error);
      }
    }
    return Failure(Conflict);
  }

  /** How the answer to a duplicate create follows from the decision. */
  ghost predicate Answers(r: Result<(Movement, bool)>, d: Decision, ms: map<Id, Movement>) {
    match d
    case Insert => false
    case Replay(id) => id in ms && r == Success((ms[id], true))
    case Refuse(e) => r == Failure(e)
  }

  /** What is left of a create that got as far as `n` lines. */
  ghost predicate Partial(before: map<Id, Movement>, after: map<Id, Movement>, id: Id, input: CreateInput, n: nat)
    requires n <= |input.lines|
  {
    after == before[id := Draft(id, input, input.lines[..n])]
  }

  /** The row holds what the request says, with its first `n` lines. */
  ghost predicate StoresRequest(m: Movement, id: Id, input: CreateInput, n: nat) {
    && m.id == id && m.tenant == input.tenant && m.kind == input.kind && m.status == Status.Draft
    && m.source == input.source && m.destination == input.destination
    && m.reference == TrimSpace(input.reference)
    && (if TrimSpace(input.idempotencyKey) == "" then m.idempotencyKey == None
        else m.idempotencyKey == Some(TrimSpace(input.idempotencyKey)))
    && (if TrimSpace(ToLower(input.requestHash)) == "" then m.requestHash == None
        else m.requestHash == Some(TrimSpace(ToLower(input.requestHash))))
    && n <= |input.lines| && m.lines == input.lines[..n]
  }

  /** The request was stored with its first `n` lines and no other row was touched. */
  ghost predicate Adds(before: map<Id, Movement>, after: map<Id, Movement>, id: Id, input: CreateInput, n: nat) {
    && id in after && StoresRequest(after[id], id, input, n)
    && after - {id} == before - {id}
  }

  lemma PartialAdds(before: map<Id, Movement>, after: map<Id, Movement>, id: Id, input: CreateInput, n: nat)
    requires n <= |input.lines| && Partial(before, after, id, input, n)
    ensures Adds(before, after, id, input, n)
  {
  }

  /** Whether a unique constraint refuses the header. */
  method FindDuplicate(db: Database, id: Id, input: CreateInput) returns (found: bool)
    ensures found <==> Duplicates(db.movements, id, input)
  {
    var key := TrimSpace(input.idempotencyKey);
    var taken := set o <- db.movements |
      db.movements[o].tenant == input.tenant
      && (db.movements[o].reference == TrimSpace(input.reference)
          || (key != "" && db.movements[o].idempotencyKey == Some(key)));
    found := taken != {} || id in db.movements;
    if found && id !in db.movements {
      var o :| o in taken;
    }
    if !found {
      assert forall o <- db.movements :: o !in taken;
    }
  }

  /** The INSERT of every line is a statement of its own. */
  method InsertLines(db: Database, id: Id, input: CreateInput) returns (r: Result<()>)
    requires id in db.movements && db.movements[id] == Draft(id, input, [])
    modifies db`budget, db`movements
    ensures r == Failure(Fault) ==> db.budget == 0
    ensures r.Success? ==>
              && (forall i :: 0 <= i < |input.lines| ==> LineOk(input, i))
              && Partial(old(db.movements), db.movements, id, input, |input.lines|)
    ensures r.Failure? ==>
              && r.error in {Constraint, Fault}
              && exists n: nat :: n <= |input.lines| && Partial(old(db.movements), db.movements, id, input, n)
    ensures r == Failure(Constraint) ==> exists n :: StoppedAt(old(db.movements), db.movements, id, input, n)
    ensures old(db.budget) - |input.lines| <= db.budget
  {
    assert input.lines[..0] == [];
    assert db.movements == db.movements[id := db.movements[id]];
    for i := 0 to |input.lines|
      invariant Partial(old(db.movements), db.movements, id, input, i)
      invariant forall j :: 0 <= j < i ==> LineOk(input, j)
      invariant old(db.budget) - i <= db.budget
    {
      var ok := db.Statement();
      assert Partial(old(db.movements), db.movements, id, input, i);
      if !ok {
        return Failure(Fault);
      }
      if !LineOk(input, i) {
        assert StoppedAt(old(db.movements), db.movements, id, input, i);
        return Failure(Constraint);
      }
      var m := db.movements[id];
      db.movements := db.movements[id := m.(lines := m.lines + [input.lines[i]])];
      assert input.lines[..i] + [input.lines[i]] == input.lines[..i + 1];
    }
    return Success(());
  }

  /** Create: the header and every line are statements of their own, so an error can leave the header with
      only the first lines. `id` is the generated UUID. */
  method Create(db: Database, id: Id, input: CreateInput) returns (r: Result<(Movement, bool)>)
    requires Unique(db.movements)
    modifies db`budget, db`movements
    ensures r == Failure(Fault) ==> db.budget == 0
    ensures Decide(old(db.movements), id, input) != Insert ==>
              && db.movements == old(db.movements)
              && (r != Failure(Fault) ==> Answers(r, Decide(old(db.movements), id, input), db.movements))
    ensures Decide(old(db.movements), id, input) == Insert ==>
              && (r.Success? ==>
                    && (forall i :: 0 <= i < |input.lines| ==> LineOk(input, i)) && WarehousesOk(Draft(id, input, []))
                    && Partial(old(db.movements), db.movements, id, input, |input.lines|)
                    && r.value == (db.movements[id], false))
              && (r.Failure? ==>
                    && r.error in {Constraint, Fault}
                    && (db.movements == old(db.movements)
                        || exists n: nat :: n <= |input.lines|
                                            && Partial(old(db.movements), db.movements, id, input, n)))
    ensures Decide(old(db.movements), id, input) == Insert && r == Failure(Constraint) ==>
              exists n :: StoppedAt(old(db.movements), db.movements, id, input, n)
    ensures db.movements == old(db.movements)
            || (id !in old(db.movements) && exists n :: Adds(old(db.movements), db.movements, id, input, n))
    ensures r.Success? && !r.value.1 ==>
              Adds(old(db.movements), db.movements, id, input, |input.lines|) && r.value.0 == db.movements[id]
    ensures r.Success? && r.value.1 ==>
              && db.movements == old(db.movements) && r.value.0.id in db.movements
              && r.value.0 == db.movements[r.value.0.id] && r.value.0.tenant == input.tenant
              && TrimSpace(input.idempotencyKey) != ""
              && r.value.0.idempotencyKey == Some(TrimSpace(input.idempotencyKey))
    ensures old(db.budget) - |input.lines| - 4 <= db.budget
  {
    var ok := db.Statement();
    if !ok {
      return Failure(Fault);
    }
    if !HeaderOk(input) {
      return Failure(Constraint);
    }
    var duplicate := FindDuplicate(db, id, input);
    if duplicate {
      r := HandleCreateDuplicate(db, id, input);
      return;
    }
    r := InsertMovement(db, id, input);
    forall n: nat | n <= |input.lines| && Partial(old(db.movements), db.movements, id, input, n)
      ensures Adds(old(db.movements), db.movements, id, input, n)
    {
      PartialAdds(old(db.movements), db.movements, id, input, n);
    }
  }

  /** The header, its lines, and the movement read back. */
  method InsertMovement(db: Database, id: Id, input: CreateInput) returns (r: Result<(Movement, bool)>)
    requires WarehousesOk(Draft(id, input, []))
    modifies db`budget, db`movements
    ensures r == Failure(Fault) ==> db.budget == 0
    ensures r.Success? ==>
              && (forall i :: 0 <= i < |input.lines| ==> LineOk(input, i))
              && Partial(old(db.movements), db.movements, id, input, |input.lines|)
              && r.value == (db.movements[id], false)
    ensures r.Failure? ==>
              && r.error in {Constraint, Fault}
              && exists n: nat :: n <= |input.lines| && Partial(old(db.movements), db.movements, id, input, n)
    ensures r == Failure(Constraint) ==> exists n :: StoppedAt(old(db.movements), db.movements, id, input, n)
    ensures old(db.budget) - |input.lines| - 2 <= db.budget
  {
    db.movements := db.movements[id := Draft(id, input, [])];
    ghost var header := db.movements;
    var lines := InsertLines(db, id, input);
    forall n: nat | n <= |input.lines| && Partial(header, db.movements, id, input, n)
      ensures Partial(old(db.movements), db.movements, id, input, n)
      ensures StoppedAt(header, db.movements, id, input, n) ==>
                StoppedAt(old(db.movements), db.movements, id, input, n)
    {
    }
    if lines.Failure? {
      return Failure(lines.error);
    }
    r := ReadBack(db, id, input);
  }

  method ReadBack(db: Database, id: Id, input: CreateInput) returns (r: Result<(Movement, bool)>)
    requires id in db.movements && db.movements[id].tenant == input.tenant
    modifies db`budget
    ensures r == if r.Success? then Success((db.movements[id], false)) else Failure(Fault)
    ensures r == Failure(Fault) ==> db.budget == 0
    ensures old(db.budget) - 2 <= db.budget
  {
    var created := GetByID(db, input.tenant, id);
    if created.Failure? {
      return Failure(created.error);
    }
    return Success((created.value, false));
  }

  /** UPDATE ... WHERE id AND tenant_id AND status = from. */
  method UpdateStatus(db: Database, tenant: Id, id: Id, from: Status, to: Status) returns (r: Result<()>)
    modifies db`budget, db`movements
    ensures db.budget == if old(db.budget) == 0 then 0 else old(db.budget) - 1
    ensures r == if old(db.budget) == 0 then Failure(Fault)
                 else if id in old(db.movements) && old(db.movements)[id].tenant == tenant
                         && old(db.movements)[id].status == from
                 then Success(()) else Failure(MovementDraft)
    ensures r.Failure? ==> db.movements == old(db.movements)
    ensures r.Success? ==>
              db.movements == old(db.movements)[id := old(db.movements)[id].(status := to)]
  {
    var ok := db.Statement();
    if !ok {
      return Failure(Fault);
    }
    if id !in db.movements || db.movements[id].tenant != tenant || db.movements[id].status != from {
      return Failure(MovementDraft);
    }
    db.movements := db.movements[id := db.movements[id].(status := to)];
    return Success(());
  }

  // ---- Every run of the movements table ------------------------------------------------------------

  datatype Action =
    | Nothing
    | InsertHeader(id: Id, input: CreateInput)
    | InsertLine(id: Id, line: Line)
    | SetStatus(id: Id, to: Status)

  /** One committed statement on the movements tables. The lines of a create follow its header one by one, other
      sessions may come in between, and statuses change by compare-and-set from draft. */
  ghost predicate StepBy(a: map<Id, Movement>, b: map<Id, Movement>, action: Action) {
    match action
    case Nothing => a == b
    case InsertHeader(id, input) => Decide(a, id, input) == Insert && b == a[id := Draft(id, input, [])]
    case InsertLine(id, line) => id in a && b == a[id := a[id].(lines := a[id].lines + [line])]
    case SetStatus(id, to) =>
      id in a && a[id].status == Status.Draft && to != Status.Draft && b == a[id := a[id].(status := to)]
  }

  ghost predicate Step(a: map<Id, Movement>, b: map<Id, Movement>) {
    exists action :: StepBy(a, b, action)
  }

  ghost predicate Run(states: seq<map<Id, Movement>>) {
    && states != []
    && Unique(states[0])
    && forall i :: 0 < i < |states| ==> Step(states[i - 1], states[i])
  }

  /** What a step can never change about a row that exists. */
  ghost predicate SameIdentity(a: Movement, b: Movement) {
    && a.id == b.id && a.tenant == b.tenant && a.reference == b.reference
    && a.idempotencyKey == b.idempotencyKey && a.requestHash == b.requestHash
    && (a.status != Status.Draft ==> b.status == a.status)
  }

  lemma HeaderKeepsUnique(a: map<Id, Movement>, id: Id, input: CreateInput)
    requires Unique(a) && !Duplicates(a, id, input)
    ensures Unique(a[id := Draft(id, input, [])])
  {
    assert forall o <- a :: o != id;
  }

  lemma StepKeeps(a: map<Id, Movement>, b: map<Id, Movement>)
    requires Unique(a) && Step(a, b)
    ensures Unique(b)
    ensures forall id <- a :: id in b && SameIdentity(a[id], b[id])
  {
    var action :| StepBy(a, b, action);
    match action
    case Nothing =>
    case InsertHeader(id, input) => HeaderKeepsUnique(a, id, input);
    case InsertLine(id, line) =>
    case SetStatus(id, to) =>
  }

  /** In every run there is at most one movement per tenant and reference and per tenant and key, rows are
      never lost, and a status never leaves confirmed or cancelled. */
  lemma {:induction false} RunKeeps(states: seq<map<Id, Movement>>, i: nat, j: nat)
    requires Run(states) && i <= j < |states|
    ensures Unique(states[i]) && Unique(states[j])
    ensures forall id <- states[i] :: id in states[j] && SameIdentity(states[i][id], states[j][id])
    decreases j
  {
    if j == 0 {
    } else {
      RunKeeps(states, if i < j then i else j - 1, j - 1);
      StepKeeps(states[j - 1], states[j]);
      if i < j {
        forall id <- states[i]
          ensures id in states[j] && SameIdentity(states[i][id], states[j][id])
        {
          assert SameIdentity(states[j - 1][id], states[j][id]);
        }
      }
    }
  }

  lemma DecideOnKey(ms: map<Id, Movement>, id: Id, input: CreateInput, holder: Id)
    requires Unique(ms) && holder in ms && ms[holder].tenant == input.tenant
    requires TrimSpace(input.idempotencyKey) != "" && ms[holder].idempotencyKey == Some(TrimSpace(input.idempotencyKey))
    ensures Decide(ms, id, input) ==
            if !HeaderOk(input) then Refuse(Constraint)
            else if HashesMatch(ms[holder].requestHash, NormalizeHash(input.requestHash)) then Replay(holder)
            else Refuse(IdempotencyConflict)
  {
  }

  /** Once a create with a key and a 64-character hash has inserted its row, every later create of that tenant
      with the same key that the columns can hold replays that row when its hash is the same and is refused when it
      differs, whatever happened to the movement in between. */
  lemma CreateIsIdempotent(states: seq<map<Id, Movement>>, i: nat, j: nat, id: Id, first: CreateInput,
                           newId: Id, again: CreateInput)
    requires Run(states) && 0 < i <= j < |states|
    requires Decide(states[i - 1], id, first) == Insert && states[i] == states[i - 1][id := Draft(id, first, [])]
    requires TrimSpace(first.idempotencyKey) != "" && |NormalizeHash(first.requestHash)| == 64
    requires again.tenant == first.tenant && TrimSpace(again.idempotencyKey) == TrimSpace(first.idempotencyKey)
    ensures Decide(states[j], newId, again) ==
            if !HeaderOk(again) then Refuse(Constraint)
            else if NormalizeHash(again.requestHash) == NormalizeHash(first.requestHash) then Replay(id)
            else Refuse(IdempotencyConflict)
  {
    RunKeeps(states, i, j);
    assert SameIdentity(states[i][id], states[j][id]);
    NormalizeIsIdempotent(first.requestHash);
    DecideOnKey(states[j], newId, again, id);
  }

  /** A create with a key nobody has used is refused when its reference is taken, in every later state. */
  lemma UsedReferenceConflicts(states: seq<map<Id, Movement>>, i: nat, j: nat, id: Id, newId: Id, input: CreateInput)
    requires Run(states) && i <= j < |states| && id in states[i]
    requires states[i][id].tenant == input.tenant && states[i][id].reference == TrimSpace(input.reference)
    requires !HasKey(states[j], input.tenant, TrimSpace(input.idempotencyKey))
    ensures Decide(states[j], newId, input) == Refuse(if HeaderOk(input) then Conflict else Constraint)
  {
    RunKeeps(states, i, j);
    assert SameIdentity(states[i][id], states[j][id]);
  }
}
