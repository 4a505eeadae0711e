/** What holds in every sequential run, and when: the cache agrees with the database, and deleted products and
    warehouses hold no stock. */
module WorldLaws {
  import opened Common
  import opened Schema
  import opened Stock
  import opened CacheKeys
  import opened Cache
  import opened Catalog
  import opened ListQueries
  import MovementRepository
  import opened MovementUsecase
  import StockLaws
  import opened W = World
  import Warehouses

  // ---- Runs ------------------------------------------------------------------------------------------------------

  lemma StepKeepsAlways(w: World, w': World, cfg: Config, reliable: bool)
    requires Step(w, w', cfg, reliable) && TablesOk(w.t) && WarehousesStand(w.t)
    ensures TablesOk(w'.t) && WarehousesStand(w'.t)
  {
    var a :| StepBy(w, w', a, cfg) && (reliable ==> Invalidates(a));
    StepKeepsTables(w, w', a, cfg);
    StepKeepsWarehouses(w, w', a, cfg);
  }

  lemma ReliableStepKeeps(w: World, w': World, cfg: Config)
    requires Step(w, w', cfg, true) && CollisionFree(cfg.digest) && TablesOk(w.t)
    requires Coherent(cfg, w.t.products, w.t.balances, w.entries) && ProductsStand(w.t)
    ensures Coherent(cfg, w'.t.products, w'.t.balances, w'.entries) && ProductsStand(w'.t)
  {
    var a :| StepBy(w, w', a, cfg) && Invalidates(a);
    StepKeepsCoherent(w, w', a, cfg);
    StepKeepsProducts(w, w', a, cfg);
  }

  /** Stock in a warehouse that is deleted, or was never there, cannot come about, whatever happens to the cache. */
  lemma {:induction false} WarehousesAlwaysStand(run: seq<World>, i: nat, cfg: Config, reliable: bool)
    requires Run(run, cfg, reliable) && i < |run|
    ensures TablesOk(run[i].t) && WarehousesStand(run[i].t)
  {
    if i == 0 {
    } else {
      WarehousesAlwaysStand(run, i - 1, cfg, reliable);
      StepKeepsAlways(run[i - 1], run[i], cfg, reliable);
    }
  }

  lemma {:induction false} ReliableRunKeeps(run: seq<World>, i: nat, cfg: Config)
    requires Run(run, cfg, true) && i < |run| && CollisionFree(cfg.digest)
    ensures Coherent(cfg, run[i].t.products, run[i].t.balances, run[i].entries) && ProductsStand(run[i].t)
  {
    if i == 0 {
    } else {
      WarehousesAlwaysStand(run, i - 1, cfg, true);
      ReliableRunKeeps(run, i - 1, cfg);
      ReliableStepKeeps(run[i - 1], run[i], cfg);
    }
  }

  // ---- A run with one invalidation left undone ---------------------------------------------------------------------

  lemma Extend(run: seq<World>, w: World, a: Action, cfg: Config) returns (longer: seq<World>)
    requires Run(run, cfg, false) && StepBy(run[|run| - 1], w, a, cfg)
    ensures Run(longer, cfg, false) && longer[|longer| - 1] == w
  {
    longer := run + [w];
    forall i | 0 < i < |longer|
      ensures Step(longer[i - 1], longer[i], cfg, false)
    {
      if i == |run| {
        assert StepBy(longer[i - 1], longer[i], a, cfg);
      }
    }
  }

  const SAMPLE := Product("t", "s", "n", None, 0, false)
  const SAMPLE_INPUT := MovementRepository.CreateInput("t", Inbound, "r", None, Some("w"), "", "", "",
    [Line("p", 1)], [])
  const SAMPLE_MOVEMENT := Movement("m", "t", Inbound, "r", None, Some("w"), Status.Draft, None, None, [Line("p", 1)])

  /** A product, a warehouse and a draft receipt of the product, which is cached. */
  const PREPARED := World(
    EMPTY_TABLES.(products := map["p" := SAMPLE], warehouses := map["w" := Warehouse("t", "c", "n", true, false)],
                  movements := map["m" := SAMPLE_MOVEMENT]),
    map[KeyProduct("t", "p") := One(View("p", SAMPLE, 0))])

  const SAMPLE_UPDATE := ProductUpdate(Some("s"), Some("n"), None, None, None, None, None)

  const SAMPLE_WAREHOUSE := Warehouses.Input(Some("c"), Some("n"), None)

  lemma SampleIsCreated()
    ensures Warehouses.CreateDecision(map[], "t", "w", SAMPLE_WAREHOUSE)
        == Success(Warehouse("t", "c", "n", true, false))
    ensures CreateDecision(map[], {}, "t", "p", SAMPLE_UPDATE) == Success(SAMPLE)
    ensures MovementRepository.Draft("m", SAMPLE_INPUT, SAMPLE_INPUT.lines) == SAMPLE_MOVEMENT
    ensures MovementOk(SAMPLE_MOVEMENT)
  {
  }

  lemma SampleIsInserted(w: World, w': World, cfg: Config)
    requires w.t.movements == map[] && w' == w.(t := w.t.(movements := map["m" := SAMPLE_MOVEMENT]))
    ensures StepBy(w, w', AddMovement("m", SAMPLE_INPUT), cfg)
  {
    SampleIsCreated();
    assert MovementRepository.LineOk(SAMPLE_INPUT, 0);
  }

  lemma ReachPrepared(cfg: Config) returns (run: seq<World>)
    ensures Run(run, cfg, false) && run[|run| - 1] == PREPARED
  {
    var t1 := EMPTY_TABLES.(products := map["p" := SAMPLE]);
    var t2 := t1.(warehouses := map["w" := Warehouse("t", "c", "n", true, false)]);
    SampleIsCreated();
    run := Extend([EMPTY], World(t1, map[]), WriteProduct("t", "p", Create({}, SAMPLE_UPDATE), false), cfg);
    run := Extend(run, World(t2, map[]), AddWarehouse("t", "w", SAMPLE_WAREHOUSE), cfg);
    SampleIsInserted(World(t2, map[]), PREPARED.(entries := map[]), cfg);
    run := Extend(run, PREPARED.(entries := map[]), AddMovement("m", SAMPLE_INPUT), cfg);
    run := Extend(run, PREPARED, Get("t", "p"), cfg);
  }

  /** The same after the product was deleted without its cache entry. */
  const STALE := PREPARED.(t := PREPARED.t.(products := map["p" := SAMPLE.(deleted := true)]))

  lemma ReachStale(cfg: Config) returns (run: seq<World>)
    ensures Run(run, cfg, false) && run[|run| - 1] == STALE
  {
    run := ReachPrepared(cfg);
    assert Decision(PREPARED.t, "t", "p", Delete) == Success(SAMPLE.(deleted := true));
    assert Invalidate(PREPARED.entries, "t", false) == PREPARED.entries;
    run := Extend(run, STALE, WriteProduct("t", "p", Delete, false), cfg);
  }

  const SAMPLE_KEY := Key("t", "w", "p")
  const SAMPLE_APPLIED := Applied(map[SAMPLE_KEY := 1], [Change(SAMPLE_KEY, 0, 1)])

  lemma SampleApplies()
    ensures TablesOk(STALE.t) && ConfirmDecision(STALE.t, "t", "m") == Success(SAMPLE_APPLIED)
  {
    assert SAMPLE_MOVEMENT.lines[..0] == [];
    assert map[SAMPLE_KEY := 0][SAMPLE_KEY := 1] == map[SAMPLE_KEY := 1];
    assert Raise(map[], SAMPLE_KEY, 1) == Success(SAMPLE_APPLIED);
    assert ApplyLines(map[], SAMPLE_MOVEMENT, []) == Success(Applied(map[], []));
    assert [] + SAMPLE_APPLIED.changes == SAMPLE_APPLIED.changes;
    assert ApplyStock(map[], SAMPLE_MOVEMENT) == Success(SAMPLE_APPLIED);
  }

  ghost function Overstocked(): World {
    SampleApplies();
    World(AfterConfirm(STALE.t, "m", SAMPLE_APPLIED, [0], 1), STALE.entries)
  }

  /** The confirm that reads the entry of a deleted product succeeds. */
  lemma StaleConfirm(cfg: Config)
    ensures StepBy(STALE, Overstocked(), Confirm("t", "m", [0], 1, false), cfg)
  {
    SampleApplies();
    assert LevelServed(STALE.t.products, STALE.entries, "t", "p", 0);
    assert Invalidate(STALE.entries, "t", false) == STALE.entries;
  }

  lemma StaleEntryLetsStockIn(cfg: Config) returns (run: seq<World>)
    ensures Run(run, cfg, false)
    ensures var w := run[|run| - 1];
            !ProductsStand(w.t) && !Coherent(cfg, w.t.products, w.t.balances, w.entries)
  {
    run := ReachStale(cfg);
    StaleConfirm(cfg);
    var w := Overstocked();
    run := Extend(run, w, Confirm("t", "m", [0], 1, false), cfg);
    assert w.t.balances[SAMPLE_KEY] > 0 && Read(w.t.products, "t", "p").Failure?;
    assert TenantId("t") && !OneIsRight(w.t.products, w.entries, "t", "p");
  }

  // ---- Main results -----------------------------------------------------------------------------------------

  ghost predicate AlwaysCoherent(cfg: Config, reliable: bool) {
    forall run: seq<World>, i: nat :: Run(run, cfg, reliable) && i < |run| ==>
      Coherent(cfg, run[i].t.products, run[i].t.balances, run[i].entries)
  }

  ghost predicate DeletedHoldNothing(cfg: Config, reliable: bool) {
    forall run: seq<World>, i: nat :: Run(run, cfg, reliable) && i < |run| ==> ProductsStand(run[i].t)
  }

  /** In every run every cached product, and every cached list of a query that never gets the answer of another, is
      what the repository would return now, exactly when no invalidation is left undone. */
  lemma CacheIsCoherent(cfg: Config, reliable: bool)
    requires CollisionFree(cfg.digest)
    ensures AlwaysCoherent(cfg, reliable) <==> reliable
  {
    if reliable {
      forall run: seq<World>, i: nat | Run(run, cfg, true) && i < |run|
        ensures Coherent(cfg, run[i].t.products, run[i].t.balances, run[i].entries)
      {
        ReliableRunKeeps(run, i, cfg);
      }
    } else {
      var run := StaleEntryLetsStockIn(cfg);
      var last: nat := |run| - 1;
      assert Run(run, cfg, false) && !Coherent(cfg, run[last].t.products, run[last].t.balances, run[last].entries);
    }
  }

  /** In every run a deleted product has no stock in any warehouse, even when drafts naming it existed at its
      deletion, exactly when no invalidation is left undone: a confirm learns of the deletion only through the
      cache. */
  lemma DeletedProductsHoldNoStock(cfg: Config, reliable: bool)
    requires CollisionFree(cfg.digest)
    ensures DeletedHoldNothing(cfg, reliable) <==> reliable
  {
    if reliable {
      forall run: seq<World>, i: nat | Run(run, cfg, true) && i < |run|
        ensures ProductsStand(run[i].t)
      {
        ReliableRunKeeps(run, i, cfg);
      }
    } else {
      var run := StaleEntryLetsStockIn(cfg);
      var last: nat := |run| - 1;
      assert Run(run, cfg, false) && !ProductsStand(run[last].t);
    }
  }

  /** With every invalidation carried out, in every run the cached list of such a query shows the stock of now. */
  lemma CachedListShowsStock(run: seq<World>, i: nat, cfg: Config, t: Id, q: Query)
    requires Run(run, cfg, true) && i < |run| && CollisionFree(cfg.digest) && TenantId(t) && Safe(q)
    requires ListKey(cfg, t, q) in run[i].entries
    ensures ShowsStock(cfg, run[i].t.products, run[i].t.balances, t, q, run[i].entries[ListKey(cfg, t, q)])
  {
    ReliableRunKeeps(run, i, cfg);
    assert PageIsRight(cfg, run[i].t.products, run[i].t.balances, run[i].entries, t, q);
    PageNowShowsStock(cfg, run[i].t.products, run[i].t.balances, t, q);
  }

  /** What a confirm adds to a tenant's stock of a product. */
  function Gain(m: Movement, p: Id): int {
    match m.kind
    case Inbound => StockLaws.Total(m.lines, p)
    case Outbound => -StockLaws.Total(m.lines, p)
    case Transfer => 0
    case Adjustment => if m.source == None then StockLaws.Total(m.lines, p) else -StockLaws.Total(m.lines, p)
  }

  lemma ConfirmGains(w: World, w': World, cfg: Config, tenant: Id, id: Id, levels: seq<int>, first: nat,
      invalidated: bool, p: Id)
    requires StepBy(w, w', Confirm(tenant, id, levels, first, invalidated), cfg)
    ensures id in w.t.movements
    ensures StockLaws.ProductTotal(w'.t.balances, tenant, p) ==
            StockLaws.ProductTotal(w.t.balances, tenant, p) + Gain(w.t.movements[id], p)
  {
    var m := w.t.movements[id];
    StockLaws.ApplyLinesExact(w.t.balances, m, m.lines);
    StockLaws.StockIsConserved(w.t.balances, w'.t.balances, m, m.lines, p);
  }

  /** A list read after a confirm, from the cache or not, shows the stock before it and what it brought or took. */
  lemma ListAfterConfirm(run: seq<World>, i: nat, cfg: Config, tenant: Id, id: Id, levels: seq<int>, first: nat,
      q: Query, page: Blob, n: nat)
    requires Run(run, cfg, true) && i + 1 < |run| && CollisionFree(cfg.digest) && Safe(q)
    requires StepBy(run[i], run[i + 1], Confirm(tenant, id, levels, first, true), cfg)
    requires var w := run[i + 1];
             || page == PageNow(cfg, w.t.products, w.t.balances, tenant, q)
             || (ListKey(cfg, tenant, q) in w.entries && page == w.entries[ListKey(cfg, tenant, q)])
    requires page.Page? && n < |page.items|
    ensures id in run[i].t.movements
    ensures var item := page.items[n];
            item.currentStock ==
            StockLaws.ProductTotal(run[i].t.balances, tenant, item.id) + Gain(run[i].t.movements[id], item.id)
  {
    var w := run[i + 1];
    if page == PageNow(cfg, w.t.products, w.t.balances, tenant, q) {
      PageNowShowsStock(cfg, w.t.products, w.t.balances, tenant, q);
    } else {
      CachedListShowsStock(run, i + 1, cfg, tenant, q);
    }
    ConfirmGains(run[i], w, cfg, tenant, id, levels, first, true, page.items[n].id);
  }

  /** Whatever list queries are made, what is cached for `q` is what the repository would return for it now. */
  ghost predicate AlwaysRight(q: Query) {
    forall cfg: Config, run: seq<World>, i: nat, t: Id ::
      CollisionFree(cfg.digest) && Run(run, cfg, true) && i < |run| && TenantId(t) ==>
        PageIsRight(cfg, run[i].t.products, run[i].t.balances, run[i].entries, t, q)
  }

  /** A filtering that tells `r` from every query with another effect. */
  function Telling(r: Query): Config {
    Config((_: Products, x: Listing) => if x == Effective(r) then Selection([], 1)
        else Selection([], 0), (s: string) => s)
  }

  lemma RivalIsServed(q: Query, r: Query)
    requires HasInts(q) && SharesEntry(q, r) && Answerable(r) && !(Answerable(q) && Effective(r) == Effective(q))
    ensures !AlwaysRight(q)
  {
    var cfg := Telling(r);
    FingerprintIsTail(cfg.digest, q, r);
    var w := World(EMPTY_TABLES, map[ListKey(cfg, "t", r) := PageNow(cfg, map[], map[], "t", r)]);
    var run := [EMPTY, w];
    assert StepBy(EMPTY, w, List("t", r), cfg);
    assert Step(EMPTY, w, cfg, true);
    assert Run(run, cfg, true);
    assert CollisionFree(cfg.digest) && TenantId("t");
    assert !PageIsRight(cfg, run[1].t.products, run[1].t.balances, run[1].entries, "t", q);
  }

  /** With every invalidation carried out, the cached list of a query is right in every run, whatever the database holds
      and selects and whatever other queries are made, exactly when every answered query that shares its entry has the
      same page, search, sort column, direction and category. */
  lemma ListIsAlwaysRight(q: Query)
    requires HasInts(q)
    ensures AlwaysRight(q) <==> Agrees(q)
    ensures Answerable(q) ==> (AlwaysRight(q) <==> Steady(q))
  {
    if Agrees(q) {
      forall cfg: Config, run: seq<World>, i: nat, t: Id |
        CollisionFree(cfg.digest) && Run(run, cfg, true) && i < |run| && TenantId(t)
        ensures PageIsRight(cfg, run[i].t.products, run[i].t.balances, run[i].entries, t, q)
      {
        ReliableRunKeeps(run, i, cfg);
      }
    } else {
      var r := Disagreeing(q);
      RivalIsServed(q, r);
    }
    if Answerable(q) {
      AgreesIsSteady(q);
    }
  }
}
