/** Every sequential run of product, category, warehouse and movement operations over the tables and the cache, with
    entries evicted at any time. An operation that fails changes no table, and what it may have cached on the way
    are reads of their own; so the steps are the reads, the evictions and the operations that succeed. */
module World {
  import opened Common
  import opened Schema
  import opened Store
  import opened Stock
  import opened CacheKeys
  import opened Cache
  import opened Catalog
  import opened ListQueries
  import opened MovementRepository
  import opened MovementUsecase
  import StockLaws
  import Warehouses

  datatype World = World(t: Tables, entries: Entries)

  const EMPTY_TABLES := Tables(map[], map[], map[], map[], map[], [])
  const EMPTY := World(EMPTY_TABLES, map[])

  datatype ProductWrite =
    | Create(categories: set<Id>, input: ProductUpdate)
    | Update(categories: set<Id>, input: ProductUpdate)
    | Delete
    | Restore

  /** `invalidated` says whether the invalidation behind the committed write was carried out: a refused cache
      command, a crash, or a failed read between the two leave it undone. */
  datatype Action =
    | Evict(kept: Entries)
    | Get(tenant: Id, id: Id)
    | List(tenant: Id, q: Query)
    | WriteProduct(tenant: Id, id: Id, write: ProductWrite, invalidated: bool)
    | WriteCategory(tenant: Id, invalidated: bool)
    | AddWarehouse(tenant: Id, id: Id, details: Warehouses.Input)
    | UpdateWarehouse(tenant: Id, id: Id, details: Warehouses.Input)
    | DeleteWarehouse(tenant: Id, id: Id)
    | AddMovement(id: Id, input: CreateInput)
    | Cancel(tenant: Id, id: Id)
    | Confirm(tenant: Id, id: Id, levels: seq<int>, first: nat, invalidated: bool)

  ghost function Decision(t: Tables, tenant: Id, id: Id, write: ProductWrite): Result<Product> {
    match write
    case Create(categories, input) => CreateDecision(t.products, categories, tenant, id, input)
    case Update(categories, input) => UpdateDecision(t.products, categories, tenant, id, input)
    case Delete => DeleteDecision(t.products, t.balances, tenant, id)
    case Restore => RestoreDecision(t.products, tenant, id)
  }

  function Invalidate(entries: Entries, tenant: Id, invalidated: bool): Entries {
    map k <- entries | !(invalidated && Matches(PatternProducts(tenant), k)) :: entries[k]
  }

  ghost predicate StepBy(w: World, w': World, a: Action, cfg: Config) {
    match a
    case Evict(kept) => Within(kept, w.entries) && w' == w.(entries := kept)
    case Get(tenant, id) =>
      && TenantId(tenant) && Read(w.t.products, tenant, id).Success?
      && w' == w.(entries := w.entries[KeyProduct(tenant, id) := One(Read(w.t.products, tenant, id).value)])
    case List(tenant, q) =>
      && TenantId(tenant) && HasInts(q) && Answerable(q)
      && w' == w.(entries := w.entries[ListKey(cfg, tenant, q) := PageNow(cfg, w.t.products, w.t.balances, tenant, q)])
    case WriteProduct(tenant, id, write, invalidated) =>
      && TenantId(tenant)
      && var d := Decision(w.t, tenant, id, write);
         d.Success? && w' == World(w.t.(products := w.t.products[id := d.value]),
             Invalidate(w.entries, tenant, invalidated))
    case WriteCategory(tenant, invalidated) =>
      TenantId(tenant) && w' == w.(entries := Invalidate(w.entries, tenant, invalidated))
    case AddWarehouse(tenant, id, details) =>
      var d := Warehouses.CreateDecision(w.t.warehouses, tenant, id, details);
      d.Success? && w' == w.(t := w.t.(warehouses := w.t.warehouses[id := d.value]))
    case UpdateWarehouse(tenant, id, details) =>
      var d := Warehouses.UpdateDecision(w.t.warehouses, tenant, id, details);
      d.Success? && w' == w.(t := w.t.(warehouses := w.t.warehouses[id := d.value]))
    case DeleteWarehouse(tenant, id) =>
      var d := Warehouses.DeleteDecision(w.t.warehouses, w.t.balances, tenant, id);
      d.Success? && w' == w.(t := w.t.(warehouses := w.t.warehouses[id := d.value]))
    case AddMovement(id, input) =>
      var m := MovementRepository.Draft(id, input, input.lines);
      && Decide(w.t.movements, id, input) == Insert && MovementOk(m)
      && (forall i :: 0 <= i < |input.lines| ==> LineOk(input, i))
      && w' == w.(t := w.t.(movements := w.t.movements[id := m]))
    case Cancel(tenant, id) =>
      var d := CancelDecision(w.t.movements, tenant, id);
      d.Success? && w' == w.(t := w.t.(movements := w.t.movements[id := d.value]))
    case Confirm(tenant, id, levels, first, invalidated) =>
      && TenantId(tenant) && TablesOk(w.t)
      && Committed(w.t, w'.t, w.entries, tenant, id, levels, first)
      && w'.entries == Invalidate(w.entries, tenant, invalidated)
  }

  predicate Invalidates(a: Action) {
    (a.WriteProduct? || a.WriteCategory? || a.Confirm?) ==> a.invalidated
  }

  /** With `reliable` no invalidation is left undone. */
  ghost predicate Step(w: World, w': World, cfg: Config, reliable: bool) {
    exists a :: StepBy(w, w', a, cfg) && (reliable ==> Invalidates(a))
  }

  ghost predicate Run(run: seq<World>, cfg: Config, reliable: bool) {
    && run != [] && run[0] == EMPTY
    && forall i :: 0 < i < |run| ==> Step(run[i - 1], run[i], cfg, reliable)
  }

  // ---- Tables ----------------------------------------------------------------------------------------------

  lemma StepKeepsTables(w: World, w': World, a: Action, cfg: Config)
    requires StepBy(w, w', a, cfg) && TablesOk(w.t)
    ensures TablesOk(w'.t)
  {
    match a
    case AddMovement(id, input) => HeaderWithLinesKeepsUnique(w.t.movements, id, input);
    case Cancel(tenant, id) => CancelKeepsMovements(w.t.movements, tenant, id);
    case Confirm(tenant, id, levels, first, invalidated) =>
      ConfirmKeepsTables(w.t, id, ConfirmDecision(w.t, tenant, id).value, levels, first);
    case _ => assert w'.t.movements == w.t.movements && w'.t.balances == w.t.balances;
  }

  lemma CancelKeepsMovements(ms: map<Id, Movement>, tenant: Id, id: Id)
    requires MovementsOk(ms) && CancelDecision(ms, tenant, id).Success?
    ensures MovementsOk(ms[id := CancelDecision(ms, tenant, id).value])
  {
  }

  lemma ConfirmKeepsTables(t: Tables, id: Id, a: Applied, levels: seq<int>, first: nat)
    requires TablesOk(t) && id in t.movements && |levels| == |a.changes|
    requires ApplyStock(t.balances, t.movements[id]) == Success(a)
    ensures TablesOk(AfterConfirm(t, id, a, levels, first))
  {
    var m := t.movements[id];
    StockLaws.ApplyLinesExact(t.balances, m, m.lines);
  }

  lemma HeaderWithLinesKeepsUnique(ms: map<Id, Movement>, id: Id, input: CreateInput)
    requires Unique(ms) && !Duplicates(ms, id, input)
    ensures Unique(ms[id := MovementRepository.Draft(id, input, input.lines)])
  {
    assert forall o <- ms :: o != id;
  }

  // ---- Coherence -----------------------------------------------------------------------------------------------

  lemma InvalidateRemoves(entries: Entries, tenant: Id)
    ensures Within(Invalidate(entries, tenant, true), entries)
    ensures NoneMatches(Invalidate(entries, tenant, true), PatternProducts(tenant))
  {
  }

  /** A confirm leaves the stock of other tenants as it is. */
  lemma StockIsLocal(b: Balances, m: Movement, r: Balances)
    requires MovementOk(m) && InRange(b) && ApplyStock(b, m).Success? && r == ApplyStock(b, m).value.balances
    ensures forall t, p :: t != m.tenant ==> StockLaws.ProductTotal(r, t, p) == StockLaws.ProductTotal(b, t, p)
  {
    StockLaws.ApplyLinesExact(b, m, m.lines);
    forall t, p | t != m.tenant
      ensures StockLaws.ProductTotal(r, t, p) == StockLaws.ProductTotal(b, t, p)
    {
      var keys := StockLaws.ProductRows(b, t, p);
      forall k: Key | k.tenant == t
        ensures k in r <==> k in b
        ensures Quantity(r, k) == Quantity(b, k)
      {
      }
      assert StockLaws.ProductRows(r, t, p) == keys;
      StockLaws.SumAgrees(b, r, keys);
    }
  }

  lemma DecisionTenant(t: Tables, tenant: Id, id: Id, write: ProductWrite)
    requires Decision(t, tenant, id, write).Success?
    ensures Decision(t, tenant, id, write).value.tenant == tenant
    ensures id in t.products ==> t.products[id].tenant == tenant
  {
  }

  lemma StepKeepsCoherent(w: World, w': World, a: Action, cfg: Config)
    requires StepBy(w, w', a, cfg) && Invalidates(a) && CollisionFree(cfg.digest) && TablesOk(w.t)
    requires Coherent(cfg, w.t.products, w.t.balances, w.entries)
    ensures Coherent(cfg, w'.t.products, w'.t.balances, w'.entries)
  {
    match a
    case Evict(kept) => EvictionKeeps(cfg, w.t.products, w.t.balances, w.entries, kept);
    case Get(tenant, id) => FillOneKeeps(cfg, w.t.products, w.t.balances, w.entries, tenant, id);
    case List(tenant, q) => FillPageKeeps(cfg, w.t.products, w.t.balances, w.entries, tenant, q);
    case WriteProduct(tenant, id, write, _) =>
      DecisionTenant(w.t, tenant, id, write);
      ProductWriteIsLocal(w.t.products, w.t.balances, id, Decision(w.t, tenant, id, write).value);
      InvalidateRemoves(w.entries, tenant);
      InvalidationKeeps(cfg, w.t.products, w.t.balances, w.entries, w'.t.products, w'.t.balances, w'.entries, tenant);
    case WriteCategory(tenant, _) =>
      InvalidateRemoves(w.entries, tenant);
      EvictionKeeps(cfg, w.t.products, w.t.balances, w.entries, w'.entries);
    case Confirm(tenant, id, levels, first, _) =>
      StockIsLocal(w.t.balances, w.t.movements[id], w'.t.balances);
      InvalidateRemoves(w.entries, tenant);
      InvalidationKeeps(cfg, w.t.products, w.t.balances, w.entries, w'.t.products, w'.t.balances, w'.entries, tenant);
    case _ =>
  }

  /** A confirm as the method carries it out, lookups and invalidation included, keeps the cache coherent. */
  lemma ConfirmKeepsCoherent(cfg: Config, t: Tables, t': Tables, before: Entries, after: Entries, tenant: Id, id: Id,
                             levels: seq<int>, first: nat)
    requires TablesOk(t) && TenantId(tenant) && Coherent(cfg, t.products, t.balances, before)
    requires Committed(t, t', before, tenant, id, levels, first)
    requires Filled(t.products, before, after, tenant) && NoneMatches(after, PatternProducts(tenant))
    ensures Coherent(cfg, t'.products, t'.balances, after)
  {
    FillKeepsCoherent(cfg, t.products, t.balances, before, after, tenant);
    StockIsLocal(t.balances, t.movements[id], t'.balances);
    InvalidationKeeps(cfg, t.products, t.balances, after, t'.products, t'.balances, after, tenant);
  }

  /** On a coherent cache the thresholds a confirm compares with are the stored reorder levels. */
  lemma ThresholdsAreStored(cfg: Config, t: Tables, t': Tables, entries: Entries, tenant: Id, id: Id, levels: seq<int>,
                            first: nat, i: nat)
    requires TablesOk(t) && TenantId(tenant) && Coherent(cfg, t.products, t.balances, entries)
    requires Committed(t, t', entries, tenant, id, levels, first) && i < |levels|
    ensures var c := ConfirmDecision(t, tenant, id).value.changes[i];
            c.key.product in t.products && !t.products[c.key.product].deleted
            && levels[i] == t.products[c.key.product].reorderLevel
  {
    var c := ConfirmDecision(t, tenant, id).value.changes[i];
    assert LevelServed(t.products, entries, tenant, c.key.product, levels[i]);
    assert OneIsRight(t.products, entries, tenant, c.key.product);
  }

  // ---- Deleted things hold no stock -------------------------------------------------------------------------

  /** Stock lies only in warehouses that exist. */
  ghost predicate WarehousesStand(t: Tables) {
    forall k <- t.balances :: t.balances[k] > 0 ==>
      Warehouses.FindWarehouse(t.warehouses, k.tenant, k.warehouse).Success?
  }

  /** Only products that exist have stock. */
  ghost predicate ProductsStand(t: Tables) {
    forall k <- t.balances :: t.balances[k] > 0 ==> Read(t.products, k.tenant, k.product).Success?
  }

  /** A row a confirm raises is in a checked warehouse and its product was looked up. */
  lemma ConfirmedRow(t: Tables, entries: Entries, tenant: Id, id: Id, a: Applied, levels: seq<int>, k: Key)
    requires TablesOk(t) && ConfirmDecision(t, tenant, id) == Success(a)
    requires AllServed(t.products, entries, tenant, a.changes, levels)
    requires Quantity(a.balances, k) != Quantity(t.balances, k)
    ensures k.tenant == tenant && Warehouses.FindWarehouse(t.warehouses, tenant, k.warehouse).Success?
    ensures exists level :: LevelServed(t.products, entries, tenant, k.product, level)
  {
    var m := t.movements[id];
    StockLaws.ApplyLinesChain(t.balances, m, m.lines, k);
    var i := ChangedSomewhere(a.changes, k);
    assert LevelServed(t.products, entries, tenant, a.changes[i].key.product, levels[i]);
  }

  lemma {:induction false} ChangedSomewhere(changes: seq<Change>, k: Key) returns (i: nat)
    requires StockLaws.ChangesOf(changes, k) != []
    ensures i < |changes| && changes[i].key == k
  {
    var n := |changes| - 1;
    if changes[n].key == k {
      i := n;
    } else {
      i := ChangedSomewhere(changes[..n], k);
    }
  }

  lemma StepKeepsWarehouses(w: World, w': World, a: Action, cfg: Config)
    requires StepBy(w, w', a, cfg) && TablesOk(w.t) && WarehousesStand(w.t)
    ensures WarehousesStand(w'.t)
  {
    if a.Confirm? {
      var d := ConfirmDecision(w.t, a.tenant, a.id).value;
      forall k <- w'.t.balances | w'.t.balances[k] > 0
        ensures Warehouses.FindWarehouse(w'.t.warehouses, k.tenant, k.warehouse).Success?
      {
        if Quantity(w'.t.balances, k) != Quantity(w.t.balances, k) {
          ConfirmedRow(w.t, w.entries, a.tenant, a.id, d, a.levels, k);
        }
      }
    }
  }

  lemma StepKeepsProducts(w: World, w': World, a: Action, cfg: Config)
    requires StepBy(w, w', a, cfg) && TablesOk(w.t) && ProductsStand(w.t)
    requires a.Confirm? ==> Coherent(cfg, w.t.products, w.t.balances, w.entries)
    ensures ProductsStand(w'.t)
  {
    if a.Confirm? {
      var d := ConfirmDecision(w.t, a.tenant, a.id).value;
      forall k <- w'.t.balances | w'.t.balances[k] > 0
        ensures Read(w'.t.products, k.tenant, k.product).Success?
      {
        if Quantity(w'.t.balances, k) != Quantity(w.t.balances, k) {
          ConfirmedRow(w.t, w.entries, a.tenant, a.id, d, a.levels, k);
          assert OneIsRight(w.t.products, w.entries, k.tenant, k.product);
        }
      }
    } else if a.WriteProduct? {
      DecisionTenant(w.t, a.tenant, a.id, a.write);
      forall k <- w.t.balances | w.t.balances[k] > 0
        ensures Read(w'.t.products, k.tenant, k.product).Success?
      {
        assert Read(w.t.products, k.tenant, k.product).Success?;
        assert a.write.Delete? && k.product == a.id ==> HasPositiveStock(w.t.balances, a.tenant, a.id);
      }
    }
  }
}
