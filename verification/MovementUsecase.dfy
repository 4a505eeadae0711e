/** ConfirmMovement, CancelMovement and createDraft (services/inventory/domains/movement/usecase/usecase.go,
    emit.go and validation.go) on one database and one cache, either of which can fail at any command. */
module MovementUsecase {
  import opened Common
  import opened Schema
  import opened Store
  import opened Stock
  import opened Events
  import opened CacheKeys
  import opened Cache
  import opened Catalog
  import opened Creates
  import opened Effects
  import opened LockPlan
  import opened MovementRepository
  import StockApply
  import StockLaws
  import Text
  import Warehouses

  // ---- Checks -------------------------------------------------------------------------------------------

  function CheckActive(warehouses: map<Id, Warehouse>, tenant: Id, id: Option<Id>): Result<()> {
    if id.None? then Success(())
    else
      var w :- Warehouses.FindWarehouse(warehouses, tenant, id.value);
      if w.active then Success(()) else Failure(Validation)
  }

  function CheckBothActive(warehouses: map<Id, Warehouse>, tenant: Id, src: Option<Id>, dst: Option<Id>): Result<()> {
    var _ :- CheckActive(warehouses, tenant, src);
    CheckActive(warehouses, tenant, dst)
  }

  ghost predicate MovementsOk(ms: map<Id, Movement>) {
    Unique(ms) && forall id <- ms :: MovementOk(ms[id])
  }

  /** What the tables guarantee about themselves. */
  ghost predicate TablesOk(t: Tables) {
    InRange(t.balances) && MovementsOk(t.movements)
  }

  /** Everything a confirm checks before it looks up products: the stock it would leave and the changes it would
      record, or why it is refused. */
  ghost function ConfirmDecision(t: Tables, tenant: Id, id: Id): Result<Applied>
    requires TablesOk(t)
  {
    if id !in t.movements || t.movements[id].tenant != tenant then Failure(NotFound)
    else if t.movements[id].status != Status.Draft then Failure(MovementDraft)
    else
      var m := t.movements[id];
      var _ :- CheckBothActive(t.warehouses, tenant, m.source, m.destination);
      ApplyStock(t.balances, m)
  }

  /** The outbox rows of some events, numbered from `first`. */
  function OutboxRows(first: nat, tenant: Id, aggregate: Id, events: seq<Event>): map<nat, OutboxRow> {
    if events == [] then map[]
    else
      var n := |events| - 1;
      OutboxRows(first, tenant, aggregate, events[..n])[first + n := OutboxRow(tenant, aggregate, events[n], false)]
  }

  /** The tables after a confirm. */
  ghost function AfterConfirm(t: Tables, id: Id, a: Applied, levels: seq<int>, first: nat): Tables
    requires id in t.movements && |levels| == |a.changes|
  {
    var m := t.movements[id];
    t.(balances := a.balances,
       movements := t.movements[id := m.(status := Confirmed)],
       audit := t.audit + [AuditRow(m.tenant, id, m.status, Confirmed, |m.lines|)],
       outbox := t.outbox + OutboxRows(first, m.tenant, id, MovementEvents(m, a.changes, levels)))
  }

  // ---- Product lookups -------------------------------------------------------------------------------------

  /** The reorder level is the stored product's or the cached one's. */
  ghost predicate LevelServed(products: Products, entries: Entries, tenant: Id, product: Id, level: int) {
    || (Read(products, tenant, product).Success? && level == Read(products, tenant, product).value.product.reorderLevel)
    || (KeyProduct(tenant, product) in entries && entries[KeyProduct(tenant, product)].One?
        && level == entries[KeyProduct(tenant, product)].view.product.reorderLevel)
  }

  ghost predicate AllServed(products: Products, entries: Entries, tenant: Id, changes: seq<Change>, levels: seq<int>) {
    && |levels| == |changes|
    && forall i :: 0 <= i < |changes| ==> LevelServed(products, entries, tenant, changes[i].key.product, levels[i])
  }

  /** A product of some change that the repository does not find. */
  ghost predicate SomeMissing(products: Products, tenant: Id, changes: seq<Change>) {
    exists i :: 0 <= i < |changes| && Read(products, tenant, changes[i].key.product).Failure?
  }

  ghost predicate IsStored(products: Products, tenant: Id, key: string, blob: Blob, id: Id) {
    key == KeyProduct(tenant, id) && Read(products, tenant, id).Success?
        && blob == One(Read(products, tenant, id).value)
  }

  /** Entries were dropped, or added with what is stored. */
  ghost predicate Filled(products: Products, before: Entries, after: Entries, tenant: Id) {
    forall k <- after ::
      (k in before && after[k] == before[k]) || (exists id :: IsStored(products, tenant, k, after[k], id))
  }

  lemma FilledTwice(products: Products, a: Entries, b: Entries, c: Entries, tenant: Id)
    requires Filled(products, a, b, tenant) && Filled(products, b, c, tenant)
    ensures Filled(products, a, c, tenant)
  {
  }

  lemma FilledOneFills(products: Products, a: Entries, b: Entries, tenant: Id, id: Id)
    requires FilledOne(products, a, b, tenant, id)
    ensures Filled(products, a, b, tenant)
  {
    if b != a {
      assert IsStored(products, tenant, KeyProduct(tenant, id), b[KeyProduct(tenant, id)], id);
    }
  }

  /** What a filled cache serves, the cache before or the table could have served. */
  lemma ServedAfterFill(products: Products, before: Entries, after: Entries, tenant: Id, id: Id, r: Result<View>)
    requires Filled(products, before, after, tenant) && Served(products, after, tenant, id, r) && r.Success?
    ensures LevelServed(products, before, tenant, id, r.value.product.reorderLevel)
  {
    var key := KeyProduct(tenant, id);
    if r != Read(products, tenant, id) && !(key in before && after[key] == before[key]) {
      var o :| IsStored(products, tenant, key, after[key], o);
      SamePrefix(PREFIX + tenant + ":product:", o, id);
    }
  }

  lemma FillKeepsCoherent(cfg: Config, products: Products, b: Balances, before: Entries, after: Entries, tenant: Id)
    requires Coherent(cfg, products, b, before) && TenantId(tenant) && Filled(products, before, after, tenant)
    ensures Coherent(cfg, products, b, after)
  {
    forall t, o | TenantId(t)
      ensures OneIsRight(products, after, t, o)
    {
      assert OneIsRight(products, before, t, o);
      var key := KeyProduct(t, o);
      if key in after && !(key in before && after[key] == before[key]) {
        var id :| IsStored(products, tenant, key, after[key], id);
        KeysAreDistinct(t, tenant, o, id);
      }
    }
    forall t, q | TenantId(t) && Safe(q)
      ensures PageIsRight(cfg, products, b, after, t, q)
    {
      assert PageIsRight(cfg, products, b, before, t, q);
      forall id
        ensures KeyProduct(tenant, id) != ListKey(cfg, t, q)
      {
        KeysAreDistinct(tenant, t, id, ProductsFP(cfg.digest, q));
      }
    }
  }

  lemma OneMoreInserted(before: map<nat, OutboxRow>, after: map<nat, OutboxRow>, first: nat, tenant: Id,
      aggregate: Id, es: seq<Event>, e: Event)
    requires Inserts(before, after, first, tenant, aggregate, es)
    ensures Inserts(before, after[first + |es| := OutboxRow(tenant, aggregate, e, false)], first, tenant, aggregate,
        es + [e])
  {
  }

  lemma {:induction false} RowsAreInserted(before: map<nat, OutboxRow>, first: nat, tenant: Id, aggregate: Id,
      es: seq<Event>)
    ensures Inserts(before, before + OutboxRows(first, tenant, aggregate, es), first, tenant, aggregate, es)
  {
    if es == [] {
      assert before + map[] == before;
    } else {
      var n := |es| - 1;
      var rows := OutboxRows(first, tenant, aggregate, es[..n]);
      RowsAreInserted(before, first, tenant, aggregate, es[..n]);
      OneMoreInserted(before, before + rows, first, tenant, aggregate, es[..n], es[n]);
      assert es == es[..n] + [es[n]];
      assert before + OutboxRows(first, tenant, aggregate, es)
          == (before + rows)[first + n := OutboxRow(tenant, aggregate, es[n], false)];
    }
  }

  // ---- emitOutbox --------------------------------------------------------------------------------------------

  lemma OneMoreRow(first: nat, tenant: Id, aggregate: Id, events: seq<Event>, e: Event)
    ensures OutboxRows(first, tenant, aggregate, events + [e]) ==
            OutboxRows(first, tenant, aggregate, events)[first + |events| := OutboxRow(tenant, aggregate, e, false)]
  {
    assert (events + [e])[..|events|] == events;
  }

  /** What the outbox holds after some events of the transaction were inserted. */
  ghost predicate Inserted(db: Database, before: map<nat, OutboxRow>, first: nat, tenant: Id, aggregate: Id,
      events: seq<Event>)
    reads db
  {
    && db.outbox == before + OutboxRows(first, tenant, aggregate, events)
    && db.nextOutboxId == first + |events|
  }

  method InsertEvent(db: Database, tenant: Id, aggregate: Id, e: Event, ghost before: map<nat, OutboxRow>,
      ghost first: nat,
                ghost events: seq<Event>)
    returns (ok: bool)
    requires Inserted(db, before, first, tenant, aggregate, events)
    modifies db`budget, db`outbox, db`nextOutboxId
    ensures ok ==>
              && db.outbox == old(db.outbox)[old(db.nextOutboxId) := OutboxRow(tenant, aggregate, e, false)]
              && db.nextOutboxId == old(db.nextOutboxId) + 1
    ensures ok ==> Inserted(db, before, first, tenant, aggregate, events + [e])
    ensures ok <==> old(db.budget) > 0
    ensures !ok ==> db.budget == 0
  {
    ok := db.Statement();
    if ok {
      OneMoreRow(first, tenant, aggregate, events, e);
      db.outbox := db.outbox[db.nextOutboxId := OutboxRow(tenant, aggregate, e, false)];
      db.nextOutboxId := db.nextOutboxId + 1;
    }
  }

  lemma OneMoreChange(m: Movement, changes: seq<Change>, i: nat, levels: seq<int>, level: int)
    requires i < |changes| && |levels| == i
    ensures MovementEvents(m, changes[..i + 1], levels + [level]) ==
            MovementEvents(m, changes[..i], levels) + ChangeEvents(m, changes[i], level)
  {
    assert changes[..i + 1][..i] == changes[..i] && (levels + [level])[..i] == levels;
  }

  /** The reorder level of a change's product. */
  method LookUpLevel(db: Database, cache: Redis<Blob>, tenant: Id, product: Id, ghost entries: Entries)
      returns (r: Result<int>)
    requires Filled(db.products, entries, cache.entries, tenant)
    modifies db`budget, cache
    ensures r.Success? ==> LevelServed(db.products, entries, tenant, product, r.value)
    ensures r.Failure? ==>
              || (r.error == NotFound && Read(db.products, tenant, product).Failure?)
              || (r.error == Fault && db.budget == 0)
    ensures Filled(db.products, entries, cache.entries, tenant)
    ensures old(cache.script) == [] ==> cache.script == []
  {
    var found := GetProduct(db, cache, tenant, product);
    FilledOneFills(db.products, old(cache.entries), cache.entries, tenant, product);
    FilledTwice(db.products, entries, old(cache.entries), cache.entries, tenant);
    if found.Failure? {
      return Failure(found.error);
    }
    ServedAfterFill(db.products, entries, old(cache.entries), tenant, product, found);
    return Success(found.value.product.reorderLevel);
  }

  /** The outbox rows of one change. */
  ghost predicate OneChange(before: map<nat, OutboxRow>, after: map<nat, OutboxRow>, n: nat, n': nat, m: Movement,
      c: Change, level: int) {
    var changed := before[n := OutboxRow(m.tenant, m.id, StockChanged(m.id, c), false)];
    if 0 < level && c.newQty < level
    then
      && n' == n + 2
      && after == changed[n + 1 := OutboxRow(m.tenant, m.id, StockBelowThreshold(c.key, c.newQty, level), false)]
    else n' == n + 1 && after == changed
  }

  /** The threshold row, if it is due. */
  method EmitThreshold(db: Database, m: Movement, c: Change, level: int, ghost before: map<nat, OutboxRow>,
      ghost first: nat, ghost done: seq<Event>)
      returns (ok: bool)
    requires Inserted(db, before, first, m.tenant, m.id, done + [StockChanged(m.id, c)])
    modifies db`budget, db`outbox, db`nextOutboxId
    ensures ok ==>
              var n := old(db.nextOutboxId);
              if 0 < level && c.newQty < level
              then
                && db.nextOutboxId == n + 1
                && db.outbox == old(db.outbox)[n := OutboxRow(m.tenant, m.id,
                    StockBelowThreshold(c.key, c.newQty, level), false)]
              else db.nextOutboxId == n && db.outbox == old(db.outbox)
    ensures ok ==> Inserted(db, before, first, m.tenant, m.id, done + ChangeEvents(m, c, level))
    ensures !ok ==> db.budget == 0
  {
    ok := true;
    if level > 0 && c.newQty < level {
      var e := StockBelowThreshold(c.key, c.newQty, level);
      ok := InsertEvent(db, m.tenant, m.id, e, before, first, done + [StockChanged(m.id, c)]);
      assert done + [StockChanged(m.id, c)] + [e] == done + ChangeEvents(m, c, level);
    } else {
      assert ChangeEvents(m, c, level) == [StockChanged(m.id, c)];
    }
  }

  /** The rows of one change: StockChanged, then the product lookup, then the threshold row if it is due. */
  method EmitChange(db: Database, cache: Redis<Blob>, m: Movement, changes: seq<Change>, i: nat,
                    ghost before: map<nat, OutboxRow>, ghost first: nat, ghost levels: seq<int>,
                    ghost entries: Entries)
    returns (r: Result<()>, ghost level: int)
    requires i < |changes| && |levels| == i
    requires Inserted(db, before, first, m.tenant, m.id, MovementEvents(m, changes[..i], levels))
    requires Filled(db.products, entries, cache.entries, m.tenant)
    modifies db`budget, db`outbox, db`nextOutboxId, cache
    ensures r.Success? ==>
              OneChange(old(db.outbox), db.outbox, old(db.nextOutboxId), db.nextOutboxId, m, changes[i], level)
    ensures r.Success? ==>
              && Inserted(db, before, first, m.tenant, m.id, MovementEvents(m, changes[..i + 1], levels + [level]))
              && LevelServed(db.products, entries, m.tenant, changes[i].key.product, level)
    ensures r.Failure? ==>
              && (r.error == NotFound || (r.error == Fault && db.budget == 0))
              && (r.error == NotFound ==> SomeMissing(db.products, m.tenant, changes))
    ensures Filled(db.products, entries, cache.entries, m.tenant)
    ensures old(cache.script) == [] ==> cache.script == []
  {
    var c := changes[i];
    ghost var done := MovementEvents(m, changes[..i], levels);
    level := 0;
    var ok := InsertEvent(db, m.tenant, m.id, StockChanged(m.id, c), before, first, done);
    if !ok {
      return Failure(Fault), level;
    }
    var found := LookUpLevel(db, cache, m.tenant, c.key.product, entries);
    if found.Failure? {
      return Failure(found.error), level;
    }
    level := found.value;
    OneMoreChange(m, changes, i, levels, level);
    ok := EmitThreshold(db, m, c, found.value, before, first, done);
    if !ok {
      return Failure(Fault), level;
    }
    return Success(()), level;
  }

  method EmitOutbox(db: Database, cache: Redis<Blob>, m: Movement, changes: seq<Change>)
    returns (r: Result<()>, ghost levels: seq<int>)
    modifies db`budget, db`outbox, db`nextOutboxId, cache
    ensures r.Success? ==>
              && AllServed(db.products, old(cache.entries), m.tenant, changes, levels)
              && db.outbox == old(db.outbox)
                              + OutboxRows(old(db.nextOutboxId), m.tenant, m.id, MovementEvents(m, changes, levels))
              && RowsAnnounce(old(db.outbox), db.outbox, old(db.nextOutboxId), m, changes, levels)
    ensures r.Failure? ==>
              && (r.error == NotFound || (r.error == Fault && db.budget == 0))
              && (r.error == NotFound ==> SomeMissing(db.products, m.tenant, changes))
    ensures Filled(db.products, old(cache.entries), cache.entries, m.tenant)
    ensures old(cache.script) == [] ==> cache.script == []
  {
    levels := [];
    ghost var before, first, entries := db.outbox, db.nextOutboxId, cache.entries;
    assert OutboxRows(first, m.tenant, m.id, []) == map[];
    var created := MovementCreated(m.tenant, m.id, m.kind, m.reference, |m.lines|);
    var ok := InsertEvent(db, m.tenant, m.id, created, before, first, []);
    if !ok {
      return Failure(Fault), levels;
    }
    assert [] + [created] == MovementEvents(m, changes[..0], []);
    for i := 0 to |changes|
      invariant |levels| == i
      invariant Inserted(db, before, first, m.tenant, m.id, MovementEvents(m, changes[..i], levels))
      invariant forall j :: 0 <= j < i ==> LevelServed(db.products, entries, m.tenant, changes[j].key.product,
          levels[j])
      invariant Filled(db.products, entries, cache.entries, m.tenant)
      invariant old(cache.script) == [] ==> cache.script == []
    {
      ghost var level;
      r, level := EmitChange(db, cache, m, changes, i, before, first, levels, entries);
      if r.Failure? {
        return;
      }
      levels := levels + [level];
    }
    assert changes[..|changes|] == changes;
    ghost var es := MovementEvents(m, changes, levels);
    RowsAreInserted(before, first, m.tenant, m.id, es);
    ghost var at := EventsAnnounce(m, changes, levels);
    return Success(()), levels;
  }

  // ---- ConfirmMovement ----------------------------------------------------------------------------------------------

  method CheckWarehouse(db: Database, tenant: Id, id: Option<Id>) returns (r: Result<()>)
    modifies db`budget
    ensures r != Failure(Fault) ==> r == CheckActive(db.warehouses, tenant, id)
    ensures r.Success? ==> Usable(db.warehouses, tenant, id)
    ensures r.Failure? && r.error != Fault ==>
              && !Usable(db.warehouses, tenant, id)
              && r.error == if Present(db.warehouses, tenant, id) then Validation else NotFound
    ensures r == Failure(Fault) ==> db.budget == 0
  {
    if id.None? {
      return Success(());
    }
    var w := Warehouses.GetWarehouse(db, tenant, id.value);
    if w.Failure? {
      return Failure(w.error);
    }
    return if w.value.active then Success(()) else Failure(Validation);
  }

  method ValidateWarehousesActive(db: Database, tenant: Id, src: Option<Id>, dst: Option<Id>) returns (r: Result<()>)
    modifies db`budget
    ensures r != Failure(Fault) ==> r == CheckBothActive(db.warehouses, tenant, src, dst)
    ensures r != Failure(Fault) ==>
              (r.Success? <==> Usable(db.warehouses, tenant, src) && Usable(db.warehouses, tenant, dst))
    ensures r.Failure? && r.error != Fault ==>
              var failing := if Usable(db.warehouses, tenant, src) then dst else src;
              r.error == if Present(db.warehouses, tenant, failing) then Validation else NotFound
    ensures r == Failure(Fault) ==> db.budget == 0
  {
    r := CheckWarehouse(db, tenant, src);
    if r.Failure? {
      return;
    }
    r := CheckWarehouse(db, tenant, dst);
  }

  /** What the audit row records of the request: the client's address and request id, as its headers give them. */
  datatype RequestMeta = RequestMeta(ip: string, requestId: string)

  const MAX_IP := 45
  const MAX_REQUEST_ID := 100

  /** The columns of audit_logs hold them. */
  predicate AuditFits(meta: RequestMeta) {
    Text.FitsColumn(meta.ip, MAX_IP) && Text.FitsColumn(meta.requestId, MAX_REQUEST_ID)
  }

  /** Why a confirm is refused other than by a fault. */
  ghost predicate RefusedFor(t: Tables, meta: RequestMeta, tenant: Id, id: Id, e: Error)
    requires TablesOk(t)
  {
    match ConfirmDecision(t, tenant, id)
    case Failure(why) => e == why
    case Success(a) => if AuditFits(meta) then e == NotFound && SomeMissing(t.products, tenant, a.changes)
        else e == Constraint
  }

  /** The transaction took effect as a whole. */
  ghost predicate Committed(before: Tables, after: Tables, entries: Entries, tenant: Id, id: Id, levels: seq<int>,
      first: nat)
    requires TablesOk(before)
  {
    var d := ConfirmDecision(before, tenant, id);
    && d.Success? && AllServed(before.products, entries, tenant, d.value.changes, levels)
    && after == AfterConfirm(before, id, d.value, levels, first)
  }

  lemma GoneIsGone(t: Tables, tenant: Id, id: Id, a: Applied)
    requires TablesOk(t) && ConfirmDecision(t, tenant, id) == Success(a) && SomeMissing(t.products, tenant, a.changes)
    ensures ProductGone(t.products, tenant, t.movements[id].lines)
  {
    var m := t.movements[id];
    var i :| 0 <= i < |a.changes| && Read(t.products, tenant, a.changes[i].key.product).Failure?;
    var k := a.changes[i].key;
    StockLaws.ApplyLinesChain(t.balances, m, m.lines, k);
    ChangeIsKept(a.changes, i);
    var j :| 0 <= j < |m.lines| && m.lines[j].product == k.product;
  }

  lemma {:induction false} ChangeIsKept(changes: seq<Change>, i: nat)
    requires i < |changes|
    ensures StockLaws.ChangesOf(changes, changes[i].key) != []
  {
    var n := |changes| - 1;
    if i < n {
      ChangeIsKept(changes[..n], i);
    }
  }

  lemma ChecksMean(t: Tables, tenant: Id, src: Option<Id>, dst: Option<Id>)
    ensures CheckBothActive(t.warehouses, tenant, src, dst) ==
            if !Usable(t.warehouses, tenant, src) then
              Failure(if Present(t.warehouses, tenant, src) then Validation else NotFound)
            else if !Usable(t.warehouses, tenant, dst) then
              Failure(if Present(t.warehouses, tenant, dst) then Validation else NotFound)
            else Success(())
  {
  }

  /** A refused confirm is refused for the first reason that applies. */
  lemma RefusedMeans(t: Tables, meta: RequestMeta, tenant: Id, id: Id, e: Error)
    requires TablesOk(t) && RefusedFor(t, meta, tenant, id, e)
    ensures Refuses(t, AuditFits(meta), tenant, id, e)
  {
    if id in t.movements && t.movements[id].tenant == tenant && t.movements[id].status == Status.Draft {
      var m := t.movements[id];
      ChecksMean(t, tenant, m.source, m.destination);
      StockRefusal(t.balances, m);
      if ConfirmDecision(t, tenant, id).Success? && AuditFits(meta) {
        GoneIsGone(t, tenant, id, ConfirmDecision(t, tenant, id).value);
      }
    }
  }

  /** A committed confirm took effect. */
  lemma CommittedMeans(t: Tables, t': Tables, entries: Entries, tenant: Id, id: Id, levels: seq<int>, first: nat)
    requires TablesOk(t) && Committed(t, t', entries, tenant, id, levels, first)
    ensures TakesEffect(t, t', tenant, id, levels, first)
  {
    var m, a := t.movements[id], ConfirmDecision(t, tenant, id).value;
    var es := MovementEvents(m, a.changes, levels);
    ChecksMean(t, tenant, m.source, m.destination);
    ApplyStockMoves(t.balances, m);
    RowsAreInserted(t.outbox, first, tenant, id, es);
    var at := EventsAnnounce(m, a.changes, levels);
    assert Announces(es, m, a.changes, levels, at) && Inserts(t.outbox, t'.outbox, first, m.tenant, m.id, es);
    assert RowsAnnounce(t.outbox, t'.outbox, first, m, a.changes, levels);
  }

  /** What the outcome of the transaction means. */
  lemma Explain(t: Tables, t': Tables, entries: Entries, meta: RequestMeta, tenant: Id, id: Id, confirmed: Result<()>,
      committed: bool, levels: seq<int>, first: nat)
    requires TablesOk(t)
    requires committed ==> Committed(t, t', entries, tenant, id, levels, first)
    ensures committed ==> TakesEffect(t, t', tenant, id, levels, first)
    ensures confirmed.Failure? && RefusedFor(t, meta, tenant, id, confirmed.error) ==>
              Refuses(t, AuditFits(meta), tenant, id, confirmed.error)
  {
    if committed {
      CommittedMeans(t, t', entries, tenant, id, levels, first);
    }
    if confirmed.Failure? && RefusedFor(t, meta, tenant, id, confirmed.error) {
      RefusedMeans(t, meta, tenant, id, confirmed.error);
    }
  }

  /** The locked read, the checks and the stock. */
  method ApplyMovement(db: Database, tenant: Id, id: Id) returns (r: Result<(Movement, seq<Change>)>)
    requires TablesOk(db.Content())
    modifies db`budget, db`balances, db`locked
    ensures if id in db.movements then
              LockedSome(old(db.locked), RowsOfLines(db.movements[id], db.movements[id].lines), db.locked)
            else db.locked == old(db.locked)
    ensures r.Success? ==> db.locked == LockRows(old(db.locked), RowsOfLines(r.value.0, r.value.0.lines))
    ensures r.Success? ==>
              && ConfirmDecision(old(db.Content()), tenant, id) == Success(Applied(db.balances, r.value.1))
              && id in db.movements && r.value.0 == db.movements[id] && r.value.0.id == id
              && r.value.0.tenant == tenant && r.value.0.status == Status.Draft
    ensures r.Failure? ==>
              || ConfirmDecision(old(db.Content()), tenant, id) == Failure(r.error)
              || (r.error == Fault && db.budget == 0)
  {
    var found := GetByID(db, tenant, id);
    if id in db.movements {
      LockedNone(db.locked, RowsOfLines(db.movements[id], db.movements[id].lines));
    }
    if found.Failure? {
      return Failure(found.error);
    }
    var m := found.value;
    if m.status != Status.Draft {
      return Failure(MovementDraft);
    }
    var active := ValidateWarehousesActive(db, tenant, m.source, m.destination);
    if active.Failure? {
      return Failure(active.error);
    }
    var applied := StockApply.ApplyStock(db, m);
    if applied.Failure? {
      return Failure(applied.error);
    }
    return Success((m, applied.value));
  }

  /** The compare-and-set of the status and the audit row. */
  method MarkConfirmed(db: Database, meta: RequestMeta, m: Movement) returns (r: Result<()>)
    requires m.id in db.movements && db.movements[m.id] == m && m.status == Status.Draft
    modifies db`budget, db`movements, db`audit
    ensures r.Success? ==>
              && AuditFits(meta)
              && db.movements == old(db.movements)[m.id := m.(status := Confirmed)]
              && db.audit == old(db.audit) + [AuditRow(m.tenant, m.id, m.status, Confirmed, |m.lines|)]
    ensures r.Failure? ==> (r.error == Fault && db.budget == 0) || (r.error == Constraint && !AuditFits(meta))
  {
    r := UpdateStatus(db, m.tenant, m.id, Status.Draft, Confirmed);
    if r.Failure? {
      return;
    }
    var ok := db.Statement();
    if !ok {
      return Failure(Fault);
    }
    if !AuditFits(meta) {
      return Failure(Constraint);
    }
    db.audit := db.audit + [AuditRow(m.tenant, m.id, m.status, Confirmed, |m.lines|)];
  }

  lemma FinishedTables(t: Tables, t': Tables, m: Movement, changes: seq<Change>, levels: seq<int>, first: nat)
    requires m.id in t.movements && t.movements[m.id] == m && |levels| == |changes|
    requires t'.balances == t.balances && t'.products == t.products && t'.warehouses == t.warehouses
    requires t'.movements == t.movements[m.id := m.(status := Confirmed)]
    requires t'.audit == t.audit + [AuditRow(m.tenant, m.id, m.status, Confirmed, |m.lines|)]
    requires t'.outbox == t.outbox + OutboxRows(first, m.tenant, m.id, MovementEvents(m, changes, levels))
    ensures t' == AfterConfirm(t, m.id, Applied(t.balances, changes), levels, first)
  {
  }

  /** The status, the audit row and the outbox rows of a movement whose stock is applied. */
  method FinishConfirm(db: Database, cache: Redis<Blob>, meta: RequestMeta, m: Movement, changes: seq<Change>)
    returns (r: Result<()>, ghost levels: seq<int>)
    requires m.id in db.movements && db.movements[m.id] == m && m.status == Status.Draft
    modifies db`budget, db`movements, db`audit, db`outbox, db`nextOutboxId, cache
    ensures r.Success? ==>
              && AuditFits(meta) && AllServed(db.products, old(cache.entries), m.tenant, changes, levels)
              && db.Content() ==
                 AfterConfirm(old(db.Content()), m.id, Applied(db.balances, changes), levels, old(db.nextOutboxId))
    ensures r.Failure? ==>
              || (r.error == Fault && db.budget == 0)
              || (if AuditFits(meta) then r.error == NotFound && SomeMissing(db.products, m.tenant, changes)
                  else r.error == Constraint)
    ensures Filled(db.products, old(cache.entries), cache.entries, m.tenant)
    ensures old(cache.script) == [] ==> cache.script == []
  {
    levels := [];
    r := MarkConfirmed(db, meta, m);
    if r.Failure? {
      return;
    }
    r, levels := EmitOutbox(db, cache, m, changes);
    if r.Success? {
      FinishedTables(old(db.Content()), db.Content(), m, changes, levels, old(db.nextOutboxId));
    }
  }

  /** The callback of the transaction. What it leaves behind after a failure does not matter: it is rolled back. */
  method ConfirmInTx(db: Database, cache: Redis<Blob>, meta: RequestMeta, tenant: Id, id: Id)
    returns (r: Result<()>, ghost levels: seq<int>)
    requires TablesOk(db.Content())
    modifies db`budget, db`balances, db`locked, db`movements, db`audit, db`outbox, db`nextOutboxId, cache
    ensures r.Success? ==>
              && AuditFits(meta)
              && Committed(old(db.Content()), db.Content(), old(cache.entries), tenant, id, levels,
                  old(db.nextOutboxId))
    ensures r.Failure? ==>
              RefusedFor(old(db.Content()), meta, tenant, id, r.error) || (r.error == Fault && db.budget == 0)
    ensures Filled(db.products, old(cache.entries), cache.entries, tenant)
    ensures old(cache.script) == [] ==> cache.script == []
  {
    levels := [];
    var applied := ApplyMovement(db, tenant, id);
    if applied.Failure? {
      return Failure(applied.error), levels;
    }
    r, levels := FinishConfirm(db, cache, meta, applied.value.0, applied.value.1);
  }

  /** The errors of these commands are ignored. */
  method InvalidateAfterConfirm(cache: Redis<Blob>, tenant: Id)
    modifies cache
    ensures Within(cache.entries, old(cache.entries))
    ensures old(cache.script) == [] ==> NoneMatches(cache.entries, PatternProducts(tenant))
  {
    var _ := cache.Delete({KeyDashboardSummary(tenant)});
    var _ := cache.DeletePattern(PatternDashboardMovementsChart(tenant));
    var _ := cache.DeletePattern(PatternProducts(tenant));
  }

  /** All or nothing: whatever statement or cache command fails, the tables are as before or the whole confirm took
      effect, and only a failing connection hides which. */
  method ConfirmMovement(db: Database, cache: Redis<Blob>, meta: RequestMeta, tenant: Id, id: Id)
    returns (r: Result<Movement>, ghost levels: seq<int>)
    requires TablesOk(db.Content()) && db.saved.None?
    modifies db, cache
    ensures db.saved.None?
    ensures db.Content() == old(db.Content())
            || (AuditFits(meta)
                && Committed(old(db.Content()), db.Content(), old(cache.entries), tenant, id, levels,
                    old(db.nextOutboxId)))
    ensures r.Success? ==>
              && Committed(old(db.Content()), db.Content(), old(cache.entries), tenant, id, levels,
                  old(db.nextOutboxId))
              && r.value == db.movements[id]
    ensures r.Failure? ==>
              || (RefusedFor(old(db.Content()), meta, tenant, id, r.error) && db.Content() == old(db.Content()))
              || (r.error == Fault && db.budget == 0)
    ensures r.Success? || db.Content() != old(db.Content()) ==>
              TakesEffect(old(db.Content()), db.Content(), tenant, id, levels, old(db.nextOutboxId))
    ensures r.Success? ==> r.value == old(db.movements)[id].(status := Confirmed)
    ensures r.Failure? && r.error != Fault ==> Refuses(old(db.Content()), AuditFits(meta), tenant, id, r.error)
    ensures Filled(db.products, old(cache.entries), cache.entries, tenant)
    ensures old(cache.script) == [] && db.Content() != old(db.Content()) ==>
              NoneMatches(cache.entries, PatternProducts(tenant))
  {
    var owner := db.Begin();
    var confirmed;
    confirmed, levels := ConfirmInTx(db, cache, meta, tenant, id);
    var committed := db.End(owner, confirmed.Success?);
    Explain(old(db.Content()), db.Content(), old(cache.entries), meta, tenant, id, confirmed, committed, levels,
        old(db.nextOutboxId));
    if !committed {
      return Failure(if confirmed.Failure? then confirmed.error else Fault), levels;
    }
    InvalidateAfterConfirm(cache, tenant);
    r := GetByID(db, tenant, id);
  }

  // ---- CancelMovement ---------------------------------------------------------------------------------------

  /** The movement a cancel would write, or why it is refused. */
  function CancelDecision(ms: map<Id, Movement>, tenant: Id, id: Id): Result<Movement> {
    if id !in ms || ms[id].tenant != tenant then Failure(NotFound)
    else if ms[id].status != Status.Draft then Failure(MovementDraft)
    else Success(ms[id].(status := Cancelled))
  }

  /** Three statements without a transaction around them; only a draft is touched, and only its status. */
  method CancelMovement(db: Database, tenant: Id, id: Id) returns (r: Result<Movement>)
    modifies db`budget, db`movements
    ensures var ms := old(db.movements);
            var found := id in ms && ms[id].tenant == tenant;
            && (r.Success? ==>
                  && found && ms[id].status == Status.Draft && r.value == ms[id].(status := Cancelled)
                  && db.movements == ms[id := ms[id].(status := Cancelled)])
            && (r.Failure? && r.error != Fault ==>
                  && !(found && ms[id].status == Status.Draft) && db.movements == ms
                  && r.error == if found then MovementDraft else NotFound)
    ensures var d := CancelDecision(old(db.movements), tenant, id);
            && (r.Success? ==> r == d && db.movements == old(db.movements)[id := r.value])
            && (r.Failure? && r.error != Fault ==> r == d && db.movements == old(db.movements))
            && (r == Failure(Fault) ==>
                  && db.budget == 0
                  && (db.movements == old(db.movements)
                      || (d.Success? && db.movements == old(db.movements)[id := d.value])))
  {
    var found := GetByID(db, tenant, id);
    if found.Failure? {
      return found;
    }
    if found.value.status != Status.Draft {
      return Failure(MovementDraft);
    }
    var updated := UpdateStatus(db, tenant, id, Status.Draft, Cancelled);
    if updated.Failure? {
      return Failure(updated.error);
    }
    r := GetByID(db, tenant, id);
  }

  // ---- createDraft ------------------------------------------------------------------------------------------

  predicate IsLowerHex(c: char) {
    '0' <= c <= '9' || 'a' <= c <= 'f'
  }

  function ValidateIdempotencyCreate(input: CreateInput): Result<()> {
    var key, hash := Text.TrimSpace(input.idempotencyKey), Text.NormalizeHash(input.requestHash);
    if key == "" || |key| > 255 || |hash| != 64 || (exists c <- hash :: !IsLowerHex(c)) then Failure(Validation)
    else Success(())
  }

  predicate Named(w: Option<Id>) {
    w.Some? && w.value != ""
  }

  function ValidateMovementWarehouses(kind: MovementType, src: Option<Id>, dst: Option<Id>): Result<()> {
    var ok := match kind
      case Inbound => !Named(src) && Named(dst)
      case Outbound => Named(src) && !Named(dst)
      case Transfer => Named(src) && Named(dst) && src != dst
      case Adjustment => Named(src) != Named(dst);
    if ok then Success(()) else Failure(Validation)
  }

  /** How CreateInbound, CreateOutbound, CreateTransfer and CreateAdjustment fill in the warehouses. */
  predicate FromEndpoint(kind: MovementType, src: Option<Id>, dst: Option<Id>) {
    match kind
    case Inbound => src.None? && dst.Some?
    case Outbound => src.Some? && dst.None?
    case Transfer => src.Some? && dst.Some?
    case Adjustment => src != Some("") && dst != Some("")
  }

  /** The validation mirrors the table constraint, except that an adjustment may name only one warehouse. */
  lemma ValidationMirrorsConstraint(m: Movement)
    requires FromEndpoint(m.kind, m.source, m.destination)
    ensures ValidateMovementWarehouses(m.kind, m.source, m.destination).Success? <==>
            && WarehousesOk(m) && m.source != Some("") && m.destination != Some("")
            && !(m.kind == Adjustment && m.source.Some? && m.destination.Some?)
  {
  }

  predicate LinesPositive(lines: seq<Line>) {
    forall i :: 0 <= i < |lines| ==> lines[i].product != "" && 0 < lines[i].quantity
  }

  /** GetProduct finds the product, stored or cached. */
  ghost predicate Findable(products: Products, entries: Entries, tenant: Id, product: Id) {
    exists level :: LevelServed(products, entries, tenant, product, level)
  }

  ghost predicate AllFindable(products: Products, entries: Entries, tenant: Id, lines: seq<Line>) {
    forall i :: 0 <= i < |lines| ==> Findable(products, entries, tenant, lines[i].product)
  }

  /** Every line names a product that can be looked up and a positive quantity. */
  method CheckLines(db: Database, cache: Redis<Blob>, tenant: Id, lines: seq<Line>) returns (r: Result<()>)
    modifies db`budget, cache
    ensures r.Success? ==> LinesPositive(lines) && AllFindable(db.products, old(cache.entries), tenant, lines)
    ensures r.Failure? ==> r.error in {Validation, NotFound, Fault} && (r.error == Fault ==> db.budget == 0)
    ensures r.Success? ==> !BadLine(lines)
    ensures r == Failure(Validation) ==> BadLine(lines)
    ensures r == Failure(NotFound) ==> ProductGone(db.products, tenant, lines)
    ensures Filled(db.products, old(cache.entries), cache.entries, tenant)
  {
    for i := 0 to |lines|
      invariant LinesPositive(lines[..i]) && AllFindable(db.products, old(cache.entries), tenant, lines[..i])
      invariant Filled(db.products, old(cache.entries), cache.entries, tenant)
    {
      if lines[i].product == "" || lines[i].quantity <= 0 {
        return Failure(Validation);
      }
      var found := LookUpLevel(db, cache, tenant, lines[i].product, old(cache.entries));
      if found.Failure? {
        assert found.error == NotFound ==> Read(db.products, tenant, lines[i].product).Failure?;
        return Failure(found.error);
      }
      assert Findable(db.products, old(cache.entries), tenant, lines[i].product);
    }
    return Success(());
  }

  lemma DraftIsOk(id: Id, input: CreateInput, n: nat)
    requires n <= |input.lines| && LinesOk(input.lines)
    requires FromEndpoint(input.kind, input.source, input.destination)
    requires ValidateMovementWarehouses(input.kind, input.source, input.destination).Success?
    ensures MovementOk(MovementRepository.Draft(id, input, input.lines[..n]))
  {
  }

  /** Sending an accepted create again replays the movement it inserted, even if only some lines were stored. */
  lemma AcceptedCreateReplays(ms: map<Id, Movement>, id: Id, newId: Id, input: CreateInput, lines: seq<Line>)
    requires Unique(ms) && ValidateIdempotencyCreate(input).Success? && Decide(ms, id, input) == Insert
    ensures Decide(ms[id := MovementRepository.Draft(id, input, lines)], newId, input) == Replay(id)
  {
    var after := ms[id := MovementRepository.Draft(id, input, lines)];
    assert forall o <- ms :: o != id;
    assert Unique(after);
    Text.NormalizeIsIdempotent(input.requestHash);
    DecideOnKey(after, newId, input, id);
  }

  lemma PartialIsOk(before: map<Id, Movement>, after: map<Id, Movement>, id: Id, input: CreateInput, n: nat)
    requires FromEndpoint(input.kind, input.source, input.destination)
    requires ValidateMovementWarehouses(input.kind, input.source, input.destination).Success?
    requires n <= |input.lines| && LinesOk(input.lines) && MovementsOk(before) && Partial(before, after, id, input, n)
    ensures Decide(before, id, input) == Insert ==> MovementsOk(after)
  {
    DraftIsOk(id, input, n);
    if Decide(before, id, input) == Insert {
      HeaderKeepsUnique(before, id, input);
    }
  }

  /** The create-time checks on the request alone. */
  predicate PassesChecks(input: CreateInput) {
    && ValidateIdempotencyCreate(input).Success?
    && ValidateMovementWarehouses(input.kind, input.source, input.destination).Success?
    && Text.TrimSpace(input.reference) != "" && input.lines != [] && LinesPositive(input.lines)
  }

  /** A create that passes every check has its header refused by the table exactly when its reference has more than 100
      characters, or its reference, key or notes contain a NUL. */
  lemma OnlyUnfitTextsAreRefused(ms: map<Id, Movement>, id: Id, input: CreateInput)
    requires FromEndpoint(input.kind, input.source, input.destination)
    requires ValidateIdempotencyCreate(input).Success?
    requires ValidateMovementWarehouses(input.kind, input.source, input.destination).Success?
    ensures Decide(ms, id, input) == Refuse(Constraint) <==> !TextsFit(input)
  {
    assert forall c <- Text.NormalizeHash(input.requestHash) :: IsLowerHex(c);
  }

  /** A receipt of two lines that passes every check, with the reference and notes given. */
  lemma SampleCreate(reference: string, lineNotes: seq<string>) returns (input: CreateInput)
    requires reference != "" && Text.IsTrimmed(reference)
    ensures FromEndpoint(input.kind, input.source, input.destination) && PassesChecks(input)
    ensures input.reference == reference && input.lineNotes == lineNotes && input.idempotencyKey == "k"
    ensures Text.TrimSpace(input.reference) == reference
    ensures |input.lines| == 2 && input.lines[0].quantity == 1
    ensures TextsFit(input) <==> Text.FitsColumn(reference, MAX_REFERENCE)
  {
    var hash := seq(64, _ => 'a');
    Text.TrimmedIsFixed(reference);
    Text.LowerIsFixed(hash);
    Text.TrimmedIsFixed(hash);
    Text.TrimmedIsFixed("k");
    Text.TrimmedIsFixed("");
    input := CreateInput("t", Inbound, reference, None, Some("w"), "k", hash, "", [Line("p", 1), Line("q", 1)],
                         lineNotes);
  }

  /** The shortest reference that is too long. */
  lemma LongReference(ms: map<Id, Movement>, id: Id) returns (input: CreateInput)
    ensures FromEndpoint(input.kind, input.source, input.destination) && PassesChecks(input)
    ensures |input.reference| == MAX_REFERENCE + 1 && Decide(ms, id, input) == Refuse(Constraint)
  {
    input := SampleCreate(seq(MAX_REFERENCE + 1, _ => 'r'), []);
    OnlyUnfitTextsAreRefused(ms, id, input);
  }

  /** A reference of three characters that no text column can hold. */
  lemma NulReference(ms: map<Id, Movement>, id: Id) returns (input: CreateInput)
    ensures FromEndpoint(input.kind, input.source, input.destination) && PassesChecks(input)
    ensures input.reference == "a\0b" && Decide(ms, id, input) == Refuse(Constraint)
  {
    input := SampleCreate("a\0b", []);
    assert input.reference[1] == '\0';
    OnlyUnfitTextsAreRefused(ms, id, input);
  }

  /** When the INSERT of a line is refused, the create fails with the header and the lines before stored; sent again, it
      answers with this incomplete movement. */
  lemma RefusedLineIsReplayed(ms: map<Id, Movement>, after: map<Id, Movement>, id: Id, newId: Id, input: CreateInput,
      n: nat)
    requires Unique(ms) && ValidateIdempotencyCreate(input).Success? && Decide(ms, id, input) == Insert
    requires StoppedAt(ms, after, id, input, n)
    ensures Decide(after, newId, input) == Replay(id) && after[id].lines == input.lines[..n]
    ensures |after[id].lines| < |input.lines|
  {
    AcceptedCreateReplays(ms, id, newId, input, input.lines[..n]);
  }

  /** A NUL in the notes of the second line does this to a create that passes every check. */
  lemma NulInLineNotes(id: Id) returns (input: CreateInput)
    ensures FromEndpoint(input.kind, input.source, input.destination) && PassesChecks(input) && TextsFit(input)
    ensures StoppedAt(map[], map[id := MovementRepository.Draft(id, input, input.lines[..1])], id, input, 1)
  {
    input := SampleCreate("r", ["", "\0"]);
    SecondLineStops(id, input);
  }

  lemma SecondLineStops(id: Id, input: CreateInput)
    requires |input.lines| == 2 && input.lines[0].quantity == 1 && input.lineNotes == ["", "\0"]
    ensures StoppedAt(map[], map[id := MovementRepository.Draft(id, input, input.lines[..1])], id, input, 1)
  {
    Text.TrimmedIsFixed("\0");
    assert NotesOf(input, 1)[0] == '\0' && NotesOf(input, 0) == "";
    assert !LineOk(input, 1) && LineOk(input, 0);
  }

  /** The user belongs to the tenant, the warehouses are active and the products are found. */
  method CheckNames(db: Database, cache: Redis<Blob>, member: bool, input: CreateInput) returns (r: Result<()>)
    modifies db`budget, cache
    ensures r == Failure(Fault) ==> db.budget == 0
    ensures r.Success? ==>
              && member && LinesPositive(input.lines) && !BadLine(input.lines)
              && AllFindable(db.products, old(cache.entries), input.tenant, input.lines)
              && CheckBothActive(db.warehouses, input.tenant, input.source, input.destination).Success?
              && Usable(db.warehouses, input.tenant, input.source)
              && Usable(db.warehouses, input.tenant, input.destination)
    ensures r.Failure? ==> r.error in {Validation, Forbidden, NotFound, Fault}
    ensures r.Failure? && r.error != Fault ==>
              NamesRefused(db.warehouses, db.products, member, input, r.error)
    ensures Filled(db.products, old(cache.entries), cache.entries, input.tenant)
  {
    var ok := db.Statement();
    if !ok {
      return Failure(Fault);
    }
    if !member {
      return Failure(Forbidden);
    }
    r := ValidateWarehousesActive(db, input.tenant, input.source, input.destination);
    if r.Failure? {
      return;
    }
    r := CheckLines(db, cache, input.tenant, input.lines);
  }

  lemma RequestInOrder(input: CreateInput)
    ensures InOrder(input) <==>
            && ValidateIdempotencyCreate(input).Success?
            && ValidateMovementWarehouses(input.kind, input.source, input.destination).Success?
            && Text.TrimSpace(input.reference) != "" && input.lines != []
  {
  }

  lemma StoreMeans(ms: map<Id, Movement>, id: Id, input: CreateInput)
    requires MovementsOk(ms) && FromEndpoint(input.kind, input.source, input.destination)
    requires ValidateIdempotencyCreate(input).Success?
    requires ValidateMovementWarehouses(input.kind, input.source, input.destination).Success?
    ensures TextsFit(input) ==>
              && (forall o :: HasItsKey(ms, input, o) ==>
                    Decide(ms, id, input) == if SameBody(ms[o], input) then Replay(o) else Refuse(IdempotencyConflict))
              && ((forall o :: !HasItsKey(ms, input, o)) ==>
                    Decide(ms, id, input) == if ReferenceTaken(ms, id, input) then Refuse(Conflict) else Insert)
  {
    OnlyUnfitTextsAreRefused(ms, id, input);
    if TextsFit(input) {
      assert HeaderOk(input);
      DecideMeans(ms, id, input);
    }
  }

  /** What createDraft accepts violates a table constraint only by its texts: those of the header before anything is
      stored, the notes of a line after the header and the lines before are. Whatever fails, every stored movement keeps
      the form that confirming relies on. Quantities are Go int32 values. */
  method CreateDraft(db: Database, cache: Redis<Blob>, id: Id, member: bool, input: CreateInput)
      returns (r: Result<Movement>)
    requires FromEndpoint(input.kind, input.source, input.destination)
    requires forall l <- input.lines :: l.quantity <= MAX_INT32
    requires MovementsOk(db.movements)
    modifies db`budget, db`movements, cache
    ensures r.Failure? ==> r.error in {Validation, Forbidden, NotFound, IdempotencyConflict, Conflict, Constraint,
        Fault}
    ensures r == Failure(Fault) ==> db.budget == 0
    ensures r == Failure(Constraint) ==>
              !TextsFit(input) || exists n :: StoppedAt(old(db.movements), db.movements, id, input, n)
    ensures !TextsFit(input) ==>
              r.Failure? && r.error !in {IdempotencyConflict, Conflict} && db.movements == old(db.movements)
    ensures r.Success? ==>
              && PassesChecks(input) && member
              && AllFindable(db.products, old(cache.entries), input.tenant, input.lines)
              && CheckBothActive(db.warehouses, input.tenant, input.source, input.destination).Success?
              && match Decide(old(db.movements), id, input)
                 case Insert =>
                   Partial(old(db.movements), db.movements, id, input, |input.lines|) && r.value == db.movements[id]
                 case Replay(o) => db.movements == old(db.movements) && o in db.movements && r.value == db.movements[o]
                 case Refuse(_) => false
    ensures r.Success? ==>
              Accepted(old(db.movements), db.movements, db.warehouses, member, id, input, r.value)
    ensures r.Failure? && r.error != Fault ==>
              CreateRefused(old(db.movements), db.warehouses, db.products, member, id, input, r.error)
    ensures MovementsOk(db.movements)
    ensures Filled(db.products, old(cache.entries), cache.entries, input.tenant)
  {
    RequestInOrder(input);
    var idempotency := ValidateIdempotencyCreate(input);
    if idempotency.Failure? {
      return Failure(idempotency.error);
    }
    var warehouses := ValidateMovementWarehouses(input.kind, input.source, input.destination);
    if warehouses.Failure? {
      return Failure(warehouses.error);
    }
    if Text.TrimSpace(input.reference) == "" || input.lines == [] {
      return Failure(Validation);
    }
    var checked := CheckNames(db, cache, member, input);
    if checked.Failure? {
      return Failure(checked.error);
    }
    r := StoreDraft(db, id, input);
  }

  /** The repository call behind the checks: the tables refuse only texts that do not fit. */
  method StoreDraft(db: Database, id: Id, input: CreateInput) returns (r: Result<Movement>)
    requires FromEndpoint(input.kind, input.source, input.destination)
    requires ValidateIdempotencyCreate(input).Success?
    requires ValidateMovementWarehouses(input.kind, input.source, input.destination).Success?
    requires LinesOk(input.lines) && MovementsOk(db.movements)
    modifies db`budget, db`movements
    ensures r.Failure? ==> r.error in {IdempotencyConflict, Conflict, Constraint, Fault}
    ensures r == Failure(Fault) ==> db.budget == 0
    ensures r != Failure(Fault) ==>
              (r == Failure(Constraint) <==>
                !TextsFit(input) || (Decide(old(db.movements), id, input) == Insert && !LineNotesFit(input)))
    ensures !TextsFit(input) ==> r.Failure? && db.movements == old(db.movements)
    ensures TextsFit(input) && r == Failure(Constraint) ==>
              exists n :: StoppedAt(old(db.movements), db.movements, id, input, n)
    ensures r.Success? ==>
              match Decide(old(db.movements), id, input)
              case Insert => Partial(old(db.movements), db.movements, id, input, |input.lines|)
                  && r.value == db.movements[id]
              case Replay(o) => db.movements == old(db.movements) && o in db.movements && r.value == db.movements[o]
              case Refuse(_) => false
    ensures r.Success? ==> Answered(old(db.movements), db.movements, id, input, r.value)
    ensures r.Failure? && r.error != Fault ==> TablesRefuse(old(db.movements), id, input, r.error)
    ensures MovementsOk(db.movements)
  {
    OnlyUnfitTextsAreRefused(db.movements, id, input);
    StoreMeans(db.movements, id, input);
    var created := Create(db, id, input);
    forall n: nat | n <= |input.lines| && Partial(old(db.movements), db.movements, id, input, n)
      ensures Decide(old(db.movements), id, input) == Insert ==> MovementsOk(db.movements)
    {
      PartialIsOk(old(db.movements), db.movements, id, input, n);
    }
    if created.Failure? {
      return Failure(created.error);
    }
    forall i | 0 <= i < |input.lines| && Decide(old(db.movements), id, input) == Insert
      ensures Text.Storable(NotesOf(input, i))
    {
      assert LineOk(input, i);
    }
    return Success(created.value.0);
  }

  /** From the request to the stock: confirming a movement that was created moves, for every product, the total of the
      request's lines out of the warehouse the request takes from and into the one it brings to. */
  lemma RequestReachesBalances(ms: map<Id, Movement>, t: Tables, t': Tables, entries: Entries, input: CreateInput,
      id: Id, levels: seq<int>, first: nat)
    requires TablesOk(t) && Decide(ms, id, input) == Insert && Partial(ms, t.movements, id, input, |input.lines|)
    requires Committed(t, t', entries, input.tenant, id, levels, first)
    ensures StockMoves(t.balances, t'.balances, input.tenant, input.kind, input.source, input.destination, input.lines)
  {
    PartialAdds(ms, t.movements, id, input, |input.lines|);
    CommittedMeans(t, t', entries, input.tenant, id, levels, first);
    assert input.lines[..|input.lines|] == input.lines;
  }
}
