/** Warehouse rows (services/inventory/domains/warehouse/usecase/usecase.go and its repository). The address is not
    modelled: it influences no branch. */
module Warehouses {
  import opened Common
  import opened Schema
  import opened Store
  import opened Text

  type Rows = map<Id, Warehouse>

  /** The repository's GetByID, which is never part of a transaction. */
  function FindWarehouse(warehouses: Rows, tenant: Id, id: Id): Result<Warehouse> {
    if id in warehouses && warehouses[id].tenant == tenant && !warehouses[id].deleted then Success(warehouses[id])
    else Failure(NotFound)
  }

  ghost predicate HoldsStock(b: Balances, tenant: Id, warehouse: Id) {
    exists k <- b :: k.tenant == tenant && k.warehouse == warehouse && b[k] > 0
  }

  datatype Input = Input(code: Option<string>, name: Option<string>, active: Option<bool>)

  const MAX_CODE := 50
  const MAX_NAME := 255

  function OrEmpty(s: Option<string>): string {
    if s.Some? then TrimSpace(s.value) else ""
  }

  predicate Blank(s: Option<string>) {
    s.Some? && TrimSpace(s.value) == ""
  }

  /** What the columns can hold. */
  predicate ColumnsHold(input: Input) {
    FitsColumn(OrEmpty(input.code), MAX_CODE) && FitsColumn(OrEmpty(input.name), MAX_NAME)
  }

  /** uq_warehouses_tenant_code covers deleted warehouses too. */
  predicate CodeTaken(warehouses: Rows, tenant: Id, code: string, except: Id) {
    exists o <- warehouses :: o != except && warehouses[o].tenant == tenant && warehouses[o].code == code
  }

  ghost predicate CodeUnique(warehouses: Rows) {
    forall a <- warehouses, b <- warehouses ::
      a != b && warehouses[a].tenant == warehouses[b].tenant ==> warehouses[a].code != warehouses[b].code
  }

  /** The row a create inserts; `id` is the generated UUID. */
  function CreateDecision(warehouses: Rows, tenant: Id, id: Id, input: Input): Result<Warehouse> {
    var code, name := OrEmpty(input.code), OrEmpty(input.name);
    if code == "" || name == "" then Failure(Validation)
    else if !ColumnsHold(input) then Failure(Constraint)
    else if id in warehouses || CodeTaken(warehouses, tenant, code, id) then Failure(Conflict)
    else Success(Warehouse(tenant, code, name, if input.active.Some? then input.active.value else true, false))
  }

  function Updated(w: Warehouse, input: Input): Warehouse {
    w.(code := if input.code.Some? then OrEmpty(input.code) else w.code,
       name := if input.name.Some? then OrEmpty(input.name) else w.name,
       active := if input.active.Some? then input.active.value else w.active)
  }

  function UpdateDecision(warehouses: Rows, tenant: Id, id: Id, input: Input): Result<Warehouse> {
    if id == "" || Blank(input.code) || Blank(input.name) then Failure(Validation)
    else
      var w :- FindWarehouse(warehouses, tenant, id);
      if !ColumnsHold(input) then Failure(Constraint)
      else if CodeTaken(warehouses, tenant, Updated(w, input).code, id) then Failure(Conflict)
      else Success(Updated(w, input))
  }

  ghost function DeleteDecision(warehouses: Rows, b: Balances, tenant: Id, id: Id): Result<Warehouse> {
    if id == "" then Failure(Validation)
    else
      var w :- FindWarehouse(warehouses, tenant, id);
      if HoldsStock(b, tenant, id) then Failure(WarehouseStock) else Success(w.(active := false, deleted := true))
  }

  function Stored(warehouses: Rows, id: Id, d: Result<Warehouse>): Rows {
    if d.Success? then warehouses[id := d.value] else warehouses
  }

  method GetWarehouse(db: Database, tenant: Id, id: Id) returns (r: Result<Warehouse>)
    modifies db`budget
    ensures r == if old(db.budget) == 0 then Failure(Fault) else FindWarehouse(db.warehouses, tenant, id)
    ensures db.budget == if old(db.budget) == 0 then 0 else old(db.budget) - 1
  {
    var ok := db.Statement();
    r := if ok then FindWarehouse(db.warehouses, tenant, id) else Failure(Fault);
  }

  method CreateWarehouse(db: Database, tenant: Id, id: Id, input: Input) returns (r: Result<Warehouse>)
    modifies db`budget, db`warehouses
    ensures r != Failure(Fault) ==>
              var d := CreateDecision(old(db.warehouses), tenant, id, input);
              r == d && db.warehouses == Stored(old(db.warehouses), id, d)
    ensures r == Failure(Fault) ==> db.budget == 0 && db.warehouses == old(db.warehouses)
  {
    var code, name := OrEmpty(input.code), OrEmpty(input.name);
    if code == "" || name == "" {
      return Failure(Validation);
    }
    var ok := db.Statement();
    if !ok {
      return Failure(Fault);
    }
    if !ColumnsHold(input) {
      return Failure(Constraint);
    }
    if id in db.warehouses || CodeTaken(db.warehouses, tenant, code, id) {
      return Failure(Conflict);
    }
    var w := Warehouse(tenant, code, name, if input.active.Some? then input.active.value else true, false);
    db.warehouses := db.warehouses[id := w];
    return Success(w);
  }

  method UpdateWarehouse(db: Database, tenant: Id, id: Id, input: Input) returns (r: Result<Warehouse>)
    modifies db`budget, db`warehouses
    ensures var d := UpdateDecision(old(db.warehouses), tenant, id, input);
            && (r != Failure(Fault) ==> r == d && db.warehouses == Stored(old(db.warehouses), id, d))
            && (r == Failure(Fault) ==>
                  && db.budget == 0
                  && (db.warehouses == old(db.warehouses) || db.warehouses == Stored(old(db.warehouses), id, d)))
  {
    if id == "" || Blank(input.code) || Blank(input.name) {
      return Failure(Validation);
    }
    r := GetWarehouse(db, tenant, id);
    if r.Failure? {
      return;
    }
    r := GetWarehouse(db, tenant, id);
    if r.Failure? {
      return;
    }
    var ok := db.Statement();
    if !ok {
      return Failure(Fault);
    }
    var w := Updated(r.value, input);
    if !ColumnsHold(input) {
      return Failure(Constraint);
    }
    if CodeTaken(db.warehouses, tenant, w.code, id) {
      return Failure(Conflict);
    }
    db.warehouses := db.warehouses[id := w];
    r := GetWarehouse(db, tenant, id);
  }

  method DeleteWarehouse(db: Database, tenant: Id, id: Id) returns (r: Result<()>)
    modifies db`budget, db`warehouses
    ensures var d := DeleteDecision(old(db.warehouses), db.balances, tenant, id);
            r != Failure(Fault) ==>
              && r == (if d.Success? then Success(()) else Failure(d.error))
              && db.warehouses == Stored(old(db.warehouses), id, d)
    ensures r == Failure(Fault) ==> db.budget == 0 && db.warehouses == old(db.warehouses)
  {
    if id == "" {
      return Failure(Validation);
    }
    var before := GetWarehouse(db, tenant, id);
    if before.Failure? {
      return Failure(before.error);
    }
    var ok := db.Statement();
    if !ok {
      return Failure(Fault);
    }
    var positive := set k <- db.balances | k.tenant == tenant && k.warehouse == id && db.balances[k] > 0;
    if positive != {} {
      var k :| k in positive;
      return Failure(WarehouseStock);
    }
    assert forall k <- db.balances :: k !in positive;
    ok := db.Statement();
    if !ok {
      return Failure(Fault);
    }
    db.warehouses := db.warehouses[id := before.value.(active := false, deleted := true)];
    return Success(());
  }

  /** The tenant's warehouse, when it is not deleted. */
  predicate Exists(warehouses: Rows, tenant: Id, id: Id) {
    id in warehouses && warehouses[id].tenant == tenant && !warehouses[id].deleted
  }

  /** Another warehouse of the tenant, deleted or not, has the code. */
  ghost predicate OtherHasCode(warehouses: Rows, tenant: Id, id: Id, code: string) {
    exists o :: o in warehouses && o != id && warehouses[o].tenant == tenant && warehouses[o].code == code
  }

  /** What a create stores, or why it is refused: the first reason that applies. */
  lemma CreateMeans(warehouses: Rows, tenant: Id, id: Id, input: Input)
    ensures var code, name := OrEmpty(input.code), OrEmpty(input.name);
            CreateDecision(warehouses, tenant, id, input) ==
            if input.code.None? || TrimSpace(input.code.value) == "" || input.name.None?
               || TrimSpace(input.name.value) == "" then Failure(Validation)
            else if !FitsColumn(code, 50) || !FitsColumn(name, 255) then Failure(Constraint)
            else if id in warehouses || OtherHasCode(warehouses, tenant, id, code) then Failure(Conflict)
            else Success(Warehouse(tenant, TrimSpace(input.code.value), TrimSpace(input.name.value),
                                   !(input.active == Some(false)), false))
  {
    assert CodeTaken(warehouses, tenant, OrEmpty(input.code), id) <==>
           OtherHasCode(warehouses, tenant, id, OrEmpty(input.code));
  }

  /** What an update stores, or why it is refused: the first reason that applies. Fields that it does not name stay. */
  lemma UpdateMeans(warehouses: Rows, tenant: Id, id: Id, input: Input)
    ensures var code, name := OrEmpty(input.code), OrEmpty(input.name);
            UpdateDecision(warehouses, tenant, id, input) ==
            if id == "" || (input.code.Some? && TrimSpace(input.code.value) == "")
               || (input.name.Some? && TrimSpace(input.name.value) == "") then Failure(Validation)
            else if !Exists(warehouses, tenant, id) then Failure(NotFound)
            else if !FitsColumn(code, 50) || !FitsColumn(name, 255) then Failure(Constraint)
            else
              var w := warehouses[id];
              var newCode := if input.code.Some? then TrimSpace(input.code.value) else w.code;
              if OtherHasCode(warehouses, tenant, id, newCode) then Failure(Conflict)
              else Success(Warehouse(tenant, newCode, if input.name.Some? then TrimSpace(input.name.value) else w.name,
                                     if input.active.Some? then input.active.value else w.active, false))
  {
    if id in warehouses {
      var code := Updated(warehouses[id], input).code;
      assert CodeTaken(warehouses, tenant, code, id) <==> OtherHasCode(warehouses, tenant, id, code);
    }
  }

  /** A delete switches the warehouse off and hides it. It is refused while one of its balances is positive. */
  lemma DeleteMeans(warehouses: Rows, b: Balances, tenant: Id, id: Id)
    ensures DeleteDecision(warehouses, b, tenant, id) ==
            if id == "" then Failure(Validation)
            else if !Exists(warehouses, tenant, id) then Failure(NotFound)
            else if exists k :: k in b && k.tenant == tenant && k.warehouse == id && b[k] > 0 then
              Failure(WarehouseStock)
            else Success(warehouses[id].(active := false, deleted := true))
  {
  }

  /** What is read after a write: the written warehouse with its active flag, or nothing after a delete. */
  lemma ReadsReflectWrites(warehouses: Rows, b: Balances, tenant: Id, id: Id, input: Input)
    ensures var d := CreateDecision(warehouses, tenant, id, input);
            d.Success? ==> FindWarehouse(Stored(warehouses, id, d), tenant, id) == d
    ensures var d := UpdateDecision(warehouses, tenant, id, input);
            d.Success? ==> FindWarehouse(Stored(warehouses, id, d), tenant, id) == d
    ensures var d := DeleteDecision(warehouses, b, tenant, id);
            d.Success? ==> FindWarehouse(Stored(warehouses, id, d), tenant, id) == Failure(NotFound)
  {
  }

  /** No accepted write gives a tenant one code twice, counting deleted warehouses. */
  lemma WritesKeepCodes(warehouses: Rows, b: Balances, tenant: Id, id: Id, input: Input)
    requires CodeUnique(warehouses)
    ensures CodeUnique(Stored(warehouses, id, CreateDecision(warehouses, tenant, id, input)))
    ensures CodeUnique(Stored(warehouses, id, UpdateDecision(warehouses, tenant, id, input)))
    ensures CodeUnique(Stored(warehouses, id, DeleteDecision(warehouses, b, tenant, id)))
  {
  }
}
