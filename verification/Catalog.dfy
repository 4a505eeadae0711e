/** Products behind their cache (services/inventory/domains/catalog/usecase/products_usecase.go and
    cache_inval.go, services/inventory/domains/catalog/repository/product_repository.go). */
module Catalog {
  import opened Common
  import opened Schema
  import opened Store
  import opened Text
  import opened CacheKeys
  import opened Cache
  import opened ListQueries
  import StockLaws

  type Products = map<Id, Product>

  /** A product as it is returned and cached; a single product always has current stock 0. */
  datatype View = View(id: Id, product: Product, currentStock: int)

  datatype Blob = One(view: View) | Page(items: seq<View>, total: int)

  type Entries = map<string, Blob>

  datatype Selection = Selection(rows: seq<View>, total: int)

  /** What the model does not compute: the filtering, ordering and paging of a list query over the products a tenant
      can see, and the digest of the fingerprint. */
  datatype Config = Config(select: (Products, Listing) -> Selection, digest: string -> string)

  function Visible(products: Products, tenant: Id): Products {
    map id <- products | products[id].tenant == tenant && !products[id].deleted :: products[id]
  }

  /** The repository's GetProductByID. */
  function Read(products: Products, tenant: Id, id: Id): Result<View> {
    if id in products && products[id].tenant == tenant && !products[id].deleted then Success(View(id, products[id], 0))
    else Failure(NotFound)
  }

  ghost function WithStock(b: Balances, tenant: Id, rows: seq<View>): seq<View> {
    seq(|rows|, i requires 0 <= i < |rows| =>
      rows[i].(currentStock := StockLaws.ProductTotal(b, tenant, rows[i].id)))
  }

  /** The repository's ListProducts. */
  ghost function PageNow(cfg: Config, products: Products, b: Balances, tenant: Id, q: Query): Blob {
    var sel := cfg.select(Visible(products, tenant), Effective(q));
    Page(WithStock(b, tenant, sel.rows), sel.total)
  }

  function ListKey(cfg: Config, tenant: Id, q: Query): string {
    KeyProductsList(tenant, ProductsFP(cfg.digest, q))
  }

  /** The products of a tenant that are not deleted, as they are. */
  ghost predicate Sees(visible: Products, products: Products, tenant: Id) {
    && (forall id :: id in visible <==> id in products && products[id].tenant == tenant && !products[id].deleted)
    && (forall id :: id in visible ==> visible[id] == products[id])
  }

  /** The page of the rows that the filtering selects among the tenant's products that are not deleted, each with the
      product's total stock in the tenant's warehouses. */
  ghost predicate ShowsStock(cfg: Config, products: Products, b: Balances, tenant: Id, q: Query, page: Blob) {
    exists visible :: Sees(visible, products, tenant)
                      && var sel := cfg.select(visible, Effective(q));
                         && page.Page? && page.total == sel.total && |page.items| == |sel.rows|
                         && forall i :: 0 <= i < |sel.rows| ==>
                              && page.items[i].id == sel.rows[i].id && page.items[i].product == sel.rows[i].product
                              && page.items[i].currentStock == StockLaws.ProductTotal(b, tenant, sel.rows[i].id)
  }

  lemma PageNowShowsStock(cfg: Config, products: Products, b: Balances, tenant: Id, q: Query)
    ensures ShowsStock(cfg, products, b, tenant, q, PageNow(cfg, products, b, tenant, q))
  {
    assert Sees(Visible(products, tenant), products, tenant);
  }

  // ---- Coherence ---------------------------------------------------------------------------------------

  ghost predicate OneIsRight(products: Products, entries: Entries, t: Id, id: Id) {
    KeyProduct(t, id) in entries ==>
      Read(products, t, id).Success? && entries[KeyProduct(t, id)] == One(Read(products, t, id).value)
  }

  ghost predicate PageIsRight(cfg: Config, products: Products, b: Balances, entries: Entries, t: Id, q: Query) {
    ListKey(cfg, t, q) in entries ==>
      Answerable(q) && entries[ListKey(cfg, t, q)] == PageNow(cfg, products, b, t, q)
  }

  /** A list query that is never served the answer of another. */
  ghost predicate Safe(q: Query) {
    HasInts(q) && Agrees(q)
  }

  /** Every cached product, and every cached list of a query that only shares its entry with queries of the same answer,
      is what the repository would return now. */
  ghost predicate Coherent(cfg: Config, products: Products, b: Balances, entries: Entries) {
    && (forall t, id :: TenantId(t) ==> OneIsRight(products, entries, t, id))
    && (forall t, q :: TenantId(t) && Safe(q) ==> PageIsRight(cfg, products, b, entries, t, q))
  }

  lemma FillOneKeeps(cfg: Config, products: Products, b: Balances, entries: Entries, tenant: Id, id: Id)
    requires Coherent(cfg, products, b, entries) && TenantId(tenant) && Read(products, tenant, id).Success?
    ensures Coherent(cfg, products, b, entries[KeyProduct(tenant, id) := One(Read(products, tenant, id).value)])
  {
    var after := entries[KeyProduct(tenant, id) := One(Read(products, tenant, id).value)];
    forall t, o | TenantId(t)
      ensures OneIsRight(products, after, t, o)
    {
      assert OneIsRight(products, entries, t, o);
      KeysAreDistinct(t, tenant, o, id);
    }
    forall t, q | TenantId(t) && Safe(q)
      ensures PageIsRight(cfg, products, b, after, t, q)
    {
      assert PageIsRight(cfg, products, b, entries, t, q);
      KeysAreDistinct(tenant, t, id, ProductsFP(cfg.digest, q));
    }
  }

  lemma FillPageKeeps(cfg: Config, products: Products, b: Balances, entries: Entries, tenant: Id, query: Query)
    requires Coherent(cfg, products, b, entries) && TenantId(tenant) && CollisionFree(cfg.digest)
    requires HasInts(query) && Answerable(query)
    ensures Coherent(cfg, products, b, entries[ListKey(cfg, tenant, query) := PageNow(cfg, products, b, tenant, query)])
  {
    var after := entries[ListKey(cfg, tenant, query) := PageNow(cfg, products, b, tenant, query)];
    forall t, o | TenantId(t)
      ensures OneIsRight(products, after, t, o)
    {
      assert OneIsRight(products, entries, t, o);
      KeysAreDistinct(t, tenant, o, ProductsFP(cfg.digest, query));
    }
    forall t, q | TenantId(t) && Safe(q)
      ensures PageIsRight(cfg, products, b, after, t, q)
    {
      assert PageIsRight(cfg, products, b, entries, t, q);
      KeysAreDistinct(t, tenant, ProductsFP(cfg.digest, q), ProductsFP(cfg.digest, query));
      FingerprintIsTail(cfg.digest, q, query);
      if SharesEntry(q, query) {
        AgreesWith(q, query);
      }
    }
  }

  lemma EvictionKeeps(cfg: Config, products: Products, b: Balances, entries: Entries, after: Entries)
    requires Coherent(cfg, products, b, entries) && Within(after, entries)
    ensures Coherent(cfg, products, b, after)
  {
    forall t, o | TenantId(t)
      ensures OneIsRight(products, after, t, o)
    {
      assert OneIsRight(products, entries, t, o);
    }
    forall t, q | TenantId(t) && Safe(q)
      ensures PageIsRight(cfg, products, b, after, t, q)
    {
      assert PageIsRight(cfg, products, b, entries, t, q);
    }
  }

  /** What another tenant can read is the same before and after. */
  ghost predicate SameOutside(products: Products, b: Balances, products': Products, b': Balances, tenant: Id) {
    && (forall t :: t != tenant ==> Visible(products', t) == Visible(products, t))
    && (forall t, p :: t != tenant ==> StockLaws.ProductTotal(b', t, p) == StockLaws.ProductTotal(b, t, p))
  }

  lemma SameRead(products: Products, products': Products, t: Id, id: Id)
    requires Visible(products', t) == Visible(products, t)
    ensures Read(products', t, id) == Read(products, t, id)
  {
    assert id in Visible(products, t) <==> Read(products, t, id).Success?;
    assert id in Visible(products', t) <==> Read(products', t, id).Success?;
    assert id in Visible(products, t) ==>
        Visible(products, t)[id] == products[id] && Visible(products', t)[id] == products'[id];
  }

  /** A write that only concerns one tenant, followed by the removal of that tenant's product keys. */
  lemma InvalidationKeeps(cfg: Config, products: Products, b: Balances, entries: Entries,
                          products': Products, b': Balances, entries': Entries, tenant: Id)
    requires Coherent(cfg, products, b, entries) && TenantId(tenant)
    requires SameOutside(products, b, products', b', tenant)
    requires Within(entries', entries) && NoneMatches(entries', PatternProducts(tenant))
    ensures Coherent(cfg, products', b', entries')
  {
    forall t, id | TenantId(t)
      ensures OneIsRight(products', entries', t, id)
    {
      assert OneIsRight(products, entries, t, id);
      if t == tenant {
        PatternCoversProductKeys(t, id, "");
      } else {
        SameRead(products, products', t, id);
      }
    }
    forall t, q | TenantId(t) && Safe(q)
      ensures PageIsRight(cfg, products', b', entries', t, q)
    {
      assert PageIsRight(cfg, products, b, entries, t, q);
      if t == tenant {
        PatternCoversProductKeys(t, "", ProductsFP(cfg.digest, q));
      } else {
        var rows := cfg.select(Visible(products, t), Effective(q)).rows;
        assert WithStock(b', t, rows) == WithStock(b, t, rows);
      }
    }
  }

  /** Writing one product is invisible to the other tenants. */
  lemma ProductWriteIsLocal(products: Products, b: Balances, id: Id, p: Product)
    requires id in products ==> products[id].tenant == p.tenant
    ensures SameOutside(products, b, products[id := p], b, p.tenant)
  {
  }

  // ---- Decisions -----------------------------------------------------------------------------------------

  /** What a create or an update asks for. Description, unit and price influence nothing but whether it is refused. */
  datatype ProductUpdate = ProductUpdate(
    sku: Option<string>,
    name: Option<string>,
    category: Option<Id>,
    reorderLevel: Option<int>,
    description: Option<string>,
    unit: Option<string>,
    price: Option<real>)

  /** uq_products_tenant_sku covers deleted products too. */
  predicate SkuTaken(products: Products, tenant: Id, sku: string, except: Id) {
    exists o <- products :: o != except && products[o].tenant == tenant && products[o].sku == sku
  }

  ghost predicate SkuUnique(products: Products) {
    forall a <- products, b <- products ::
      a != b && products[a].tenant == products[b].tenant ==> products[a].sku != products[b].sku
  }

  const MAX_SKU := 100
  const MAX_NAME := 255
  const MAX_UNIT := 50

  /** DECIMAL(15, 2) holds thirteen digits before the point, after rounding to two behind it. */
  const PRICE_LIMIT := 9999999999999.995

  /** The columns of products hold what is written. */
  predicate ColumnsHold(input: ProductUpdate) {
    && FitsColumn(TrimSpace(OrEmpty(input.sku)), MAX_SKU) && FitsColumn(TrimSpace(OrEmpty(input.name)), MAX_NAME)
    && FitsColumn(TrimSpace(OrEmpty(input.unit)), MAX_UNIT) && Storable(OrEmpty(input.description))
    && (input.price.Some? ==> input.price.value < PRICE_LIMIT)
  }

  /** The numbers of a request are in order. */
  predicate NumbersOk(input: ProductUpdate) {
    (input.reorderLevel.Some? ==> input.reorderLevel.value >= 0) && (input.price.Some? ==> input.price.value >= 0.0)
  }

  /** The row a create inserts; `categories` are the tenant's existing ones and `id` is the generated UUID. */
  function CreateDecision(products: Products, categories: set<Id>, tenant: Id, id: Id,
      input: ProductUpdate): Result<Product> {
    var sku, name := TrimSpace(OrEmpty(input.sku)), TrimSpace(OrEmpty(input.name));
    if sku == "" || name == "" || !NumbersOk(input) then Failure(Validation)
    else if !CategoryKnown(categories, input.category) then Failure(NotFound)
    else
      var p := Product(tenant, sku, name, NonBlank(input.category), OrZero(input.reorderLevel), false);
      if !ColumnsHold(input) then Failure(Constraint)
      else if id in products || SkuTaken(products, tenant, sku, id) then Failure(Conflict)
      else Success(p)
  }

  function OrZero(n: Option<int>): int {
    if n.Some? then n.value else 0
  }

  function OrEmpty(s: Option<string>): string {
    if s.Some? then s.value else ""
  }

  function NonBlank(s: Option<string>): Option<string> {
    if s.Some? && TrimSpace(s.value) != "" then Some(TrimSpace(s.value)) else None
  }

  predicate CategoryKnown(categories: set<Id>, category: Option<Id>) {
    NonBlank(category).Some? ==> NonBlank(category).value in categories
  }

  predicate Blank(s: Option<string>) {
    s.Some? && TrimSpace(s.value) == ""
  }

  /** A blank category is accepted and leaves the category as it is. */
  function Updated(p: Product, input: ProductUpdate): Product {
    p.(sku := if input.sku.Some? then TrimSpace(input.sku.value) else p.sku,
       name := if input.name.Some? then TrimSpace(input.name.value) else p.name,
       category := if NonBlank(input.category).Some? then NonBlank(input.category) else p.category,
       reorderLevel := if input.reorderLevel.Some? then input.reorderLevel.value else p.reorderLevel)
  }

  function UpdateDecision(products: Products, categories: set<Id>, tenant: Id, id: Id,
      input: ProductUpdate): Result<Product> {
    if id == "" || Blank(input.sku) || Blank(input.name) || !NumbersOk(input) then Failure(Validation)
    else if !CategoryKnown(categories, input.category) then Failure(NotFound)
    else
      var old_ :- Read(products, tenant, id);
      var p := Updated(old_.product, input);
      if !ColumnsHold(input) then Failure(Constraint)
      else if SkuTaken(products, tenant, p.sku, id) then Failure(Conflict)
      else Success(p)
  }

  ghost predicate HasPositiveStock(b: Balances, tenant: Id, product: Id) {
    exists k <- b :: k.tenant == tenant && k.product == product && b[k] > 0
  }

  ghost function DeleteDecision(products: Products, b: Balances, tenant: Id, id: Id): Result<Product> {
    if id == "" then Failure(Validation)
    else
      var old_ :- Read(products, tenant, id);
      if HasPositiveStock(b, tenant, id) then Failure(ProductHasStock) else Success(old_.product.(deleted := true))
  }

  function RestoreDecision(products: Products, tenant: Id, id: Id): Result<Product> {
    if id == "" then Failure(Validation)
    else if id in products && products[id].tenant == tenant && products[id].deleted then
      Success(products[id].(deleted := false))
    else Failure(NotFound)
  }

  /** The table after a decision. */
  function Stored(products: Products, id: Id, d: Result<Product>): Products {
    if d.Success? then products[id := d.value] else products
  }

  function AsView(id: Id, d: Result<Product>): Result<View> {
    if d.Success? then Success(View(id, d.value, 0)) else Failure(d.error)
  }

  /** The tenant's product, when it is not deleted. */
  predicate Exists(products: Products, tenant: Id, id: Id) {
    id in products && products[id].tenant == tenant && !products[id].deleted
  }

  /** Another product of the tenant, deleted or not, has the SKU. */
  ghost predicate OtherHasSku(products: Products, tenant: Id, id: Id, sku: string) {
    exists o :: o in products && o != id && products[o].tenant == tenant && products[o].sku == sku
  }

  predicate Given(s: Option<string>) {
    s.Some? && TrimSpace(s.value) != ""
  }

  /** What a create stores, or why it is refused: the first reason that applies. */
  lemma CreateMeans(products: Products, categories: set<Id>, tenant: Id, id: Id, input: ProductUpdate)
    ensures CreateDecision(products, categories, tenant, id, input) ==
            if !Given(input.sku) || !Given(input.name) || !NumbersOk(input) then Failure(Validation)
            else if Given(input.category) && TrimSpace(input.category.value) !in categories then Failure(NotFound)
            else if !ColumnsHold(input) then Failure(Constraint)
            else if id in products || OtherHasSku(products, tenant, id, TrimSpace(input.sku.value)) then
              Failure(Conflict)
            else Success(Product(tenant, TrimSpace(input.sku.value), TrimSpace(input.name.value),
                                 if Given(input.category) then Some(TrimSpace(input.category.value)) else None,
                                 if input.reorderLevel.Some? then input.reorderLevel.value else 0, false))
  {
    var sku := TrimSpace(OrEmpty(input.sku));
    assert SkuTaken(products, tenant, sku, id) <==> OtherHasSku(products, tenant, id, sku);
  }

  /** What an update stores: the fields it names, and nothing else. */
  lemma UpdateMeans(products: Products, categories: set<Id>, tenant: Id, id: Id, input: ProductUpdate)
    ensures UpdateDecision(products, categories, tenant, id, input) ==
            if id == "" || (input.sku.Some? && !Given(input.sku)) || (input.name.Some? && !Given(input.name))
               || !NumbersOk(input) then Failure(Validation)
            else if Given(input.category) && TrimSpace(input.category.value) !in categories then Failure(NotFound)
            else if !Exists(products, tenant, id) then Failure(NotFound)
            else if !ColumnsHold(input) then Failure(Constraint)
            else
              var p := products[id];
              var sku := if input.sku.Some? then TrimSpace(input.sku.value) else p.sku;
              if OtherHasSku(products, tenant, id, sku) then Failure(Conflict)
              else Success(Product(tenant, sku, if input.name.Some? then TrimSpace(input.name.value) else p.name,
                                   if Given(input.category) then Some(TrimSpace(input.category.value)) else p.category,
                                   if input.reorderLevel.Some? then input.reorderLevel.value else p.reorderLevel,
                                   false))
  {
    if id in products {
      var sku := Updated(products[id], input).sku;
      assert SkuTaken(products, tenant, sku, id) <==> OtherHasSku(products, tenant, id, sku);
    }
  }

  /** A delete hides the product and is refused while one of its balances is positive; a restore shows a hidden one. */
  lemma DeleteAndRestoreMean(products: Products, b: Balances, tenant: Id, id: Id)
    ensures DeleteDecision(products, b, tenant, id) ==
            if id == "" then Failure(Validation)
            else if !Exists(products, tenant, id) then Failure(NotFound)
            else if exists k :: k in b && k.tenant == tenant && k.product == id && b[k] > 0 then
              Failure(ProductHasStock)
            else Success(products[id].(deleted := true))
    ensures RestoreDecision(products, tenant, id) ==
            if id == "" then Failure(Validation)
            else if id in products && products[id].tenant == tenant && products[id].deleted then
              Success(products[id].(deleted := false))
            else Failure(NotFound)
  {
  }

  /** No accepted write gives a tenant a SKU twice, counting deleted products, and none moves a product to another
      tenant. */
  lemma WritesKeepSkus(products: Products, categories: set<Id>, b: Balances, tenant: Id, id: Id, input: ProductUpdate)
    requires SkuUnique(products)
    ensures SkuUnique(Stored(products, id, CreateDecision(products, categories, tenant, id, input)))
    ensures SkuUnique(Stored(products, id, UpdateDecision(products, categories, tenant, id, input)))
    ensures SkuUnique(Stored(products, id, DeleteDecision(products, b, tenant, id)))
    ensures SkuUnique(Stored(products, id, RestoreDecision(products, tenant, id)))
  {
  }

  /** Restoring undoes deleting, and deleting undoes restoring while there is no stock. */
  lemma RestoreUndoesDelete(products: Products, b: Balances, tenant: Id, id: Id)
    ensures var d := DeleteDecision(products, b, tenant, id);
            d.Success? ==>
              Stored(Stored(products, id, d), id, RestoreDecision(Stored(products, id, d), tenant, id)) == products
    ensures var r := RestoreDecision(products, tenant, id);
            r.Success? && !HasPositiveStock(b, tenant, id) ==>
              Stored(Stored(products, id, r), id, DeleteDecision(Stored(products, id, r), b, tenant, id)) == products
  {
  }

  /** The usecase does not check what the columns limit: a create whose request is in order is refused by the table
      exactly when its SKU has more than 100, its name more than 255 or its unit more than 50 characters, when one of
      these or its description contains a NUL, or when its price is too large; an update of an existing product
      likewise. */
  lemma OnlyUnfitColumnsAreRefused(products: Products, categories: set<Id>, tenant: Id, id: Id, input: ProductUpdate)
    requires CategoryKnown(categories, input.category) && NumbersOk(input)
    ensures TrimSpace(OrEmpty(input.sku)) != "" && TrimSpace(OrEmpty(input.name)) != "" ==>
              (CreateDecision(products, categories, tenant, id, input) == Failure(Constraint) <==> !ColumnsHold(input))
    ensures id != "" && !Blank(input.sku) && !Blank(input.name) && Read(products, tenant, id).Success? ==>
              (UpdateDecision(products, categories, tenant, id, input) == Failure(Constraint) <==> !ColumnsHold(input))
  {
  }

  /** What is read after a write: the written product, or nothing after a delete. A refused write changes nothing. */
  lemma ReadsReflectWrites(products: Products, categories: set<Id>, b: Balances, tenant: Id, id: Id,
      input: ProductUpdate)
    ensures var d := CreateDecision(products, categories, tenant, id, input);
            d.Success? ==>
              Read(products, tenant, id).Failure? && Read(Stored(products, id, d), tenant, id) == AsView(id, d)
    ensures var d := UpdateDecision(products, categories, tenant, id, input);
            d.Success? ==>
              Read(products, tenant, id).Success? && Read(Stored(products, id, d), tenant, id) == AsView(id, d)
    ensures var d := DeleteDecision(products, b, tenant, id);
            d.Success? ==>
              Read(products, tenant, id).Success? && Read(Stored(products, id, d), tenant, id) == Failure(NotFound)
    ensures var d := RestoreDecision(products, tenant, id);
            d.Success? ==>
              && Read(products, tenant, id) == Failure(NotFound)
              && Read(Stored(products, id, d), tenant, id) == AsView(id, d)
  {
  }

  /** An accepted update is idempotent, and touches only the fields it names: a second one that names none changes
      nothing. */
  lemma UpdateIsIdempotent(products: Products, categories: set<Id>, tenant: Id, id: Id, input: ProductUpdate)
    requires UpdateDecision(products, categories, tenant, id, input).Success?
    ensures var after := Stored(products, id, UpdateDecision(products, categories, tenant, id, input));
            && Stored(after, id, UpdateDecision(after, categories, tenant, id, input)) == after
            && (input.sku.None? && input.name.None? && input.category.None? && input.reorderLevel.None? ==>
                  after == products)
  {
    if NonBlank(input.category).Some? {
      TrimIsIdempotent(input.category.value);
    }
  }

  // ---- Cache-aside reads -----------------------------------------------------------------------------------

  /** What GetProduct may answer: the cached product or the stored one. */
  ghost predicate Served(products: Products, entries: Entries, tenant: Id, id: Id, r: Result<View>) {
    || r == Read(products, tenant, id)
    || (KeyProduct(tenant, id) in entries && entries[KeyProduct(tenant, id)].One?
        && r == Success(entries[KeyProduct(tenant, id)].view))
  }

  /** At most the product's own entry was added, with what is stored. */
  ghost predicate FilledOne(products: Products, before: Entries, after: Entries, tenant: Id, id: Id) {
    || after == before
    || (Read(products, tenant, id).Success?
        && after == before[KeyProduct(tenant, id) := One(Read(products, tenant, id).value)])
  }

  method GetProduct(db: Database, cache: Redis<Blob>, tenant: Id, id: Id) returns (r: Result<View>)
    modifies db`budget, cache
    ensures r == Failure(Fault) ==> db.budget == 0 && cache.entries == old(cache.entries)
    ensures r != Failure(Fault) ==> Served(db.products, old(cache.entries), tenant, id, r)
    ensures r.Failure? ==> r.error in {NotFound, Fault} && (r.error == NotFound ==> r == Read(db.products, tenant, id))
    ensures FilledOne(db.products, old(cache.entries), cache.entries, tenant, id)
    ensures old(cache.script) == [] ==> cache.script == []
    ensures old(db.budget) - 1 <= db.budget <= old(db.budget)
  {
    var key := KeyProduct(tenant, id);
    var hit := cache.Get(key);
    if hit.Some? && hit.value.One? {
      return Success(hit.value.view);
    }
    var ok := db.Statement();
    if !ok {
      return Failure(Fault);
    }
    r := Read(db.products, tenant, id);
    if r.Success? {
      cache.Set(key, One(r.value));
    }
  }

  /** SELECT COALESCE(SUM(quantity), 0). */
  method SumStock(b: Balances, tenant: Id, product: Id) returns (n: int)
    ensures n == StockLaws.ProductTotal(b, tenant, product)
  {
    var rest := StockLaws.ProductRows(b, tenant, product);
    n := 0;
    while rest != {}
      invariant rest <= StockLaws.ProductRows(b, tenant, product)
      invariant n + StockLaws.SumOver(b, rest) == StockLaws.ProductTotal(b, tenant, product)
      decreases rest
    {
      var k :| k in rest;
      StockLaws.SumWithout(b, rest, k);
      n := n + Quantity(b, k);
      rest := rest - {k};
    }
  }

  method ListProducts(db: Database, cache: Redis<Blob>, cfg: Config, tenant: Id, q: Query) returns (r: Result<Blob>)
    modifies db`budget, cache
    ensures r == Failure(Fault) ==> db.budget == 0 && cache.entries == old(cache.entries)
    ensures r.Failure? ==> r.error == Fault || (r.error == Constraint && !Answerable(q))
    ensures r.Failure? ==> cache.entries == old(cache.entries)
    ensures r.Success? ==>
              || (Answerable(q) && r.value == PageNow(cfg, db.products, db.balances, tenant, q))
              || (ListKey(cfg, tenant, q) in old(cache.entries)
                  && r.value == old(cache.entries)[ListKey(cfg, tenant, q)])
    ensures r.Success? ==>
              || ShowsStock(cfg, db.products, db.balances, tenant, q, r.value)
              || (ListKey(cfg, tenant, q) in old(cache.entries)
                  && r.value == old(cache.entries)[ListKey(cfg, tenant, q)])
    ensures cache.entries == old(cache.entries)
            || (Answerable(q)
                && cache.entries == old(cache.entries)[ListKey(cfg, tenant, q) := PageNow(cfg, db.products,
                    db.balances, tenant, q)])
    ensures old(cache.script) == [] ==> cache.script == []
  {
    var key := ListKey(cfg, tenant, q);
    var hit := cache.Get(key);
    if hit.Some? && hit.value.Page? {
      return Success(hit.value);
    }
    var counted := db.Statement();
    if !counted {
      return Failure(Fault);
    }
    if !Answerable(q) {
      return Failure(Constraint);
    }
    var found := db.Statement();
    if !found {
      return Failure(Fault);
    }
    var sel := cfg.select(Visible(db.products, tenant), Effective(q));
    if sel.rows != [] {
      var summed := db.Statement();
      if !summed {
        return Failure(Fault);
      }
    }
    var items := [];
    for i := 0 to |sel.rows|
      modifies {}
      invariant items == WithStock(db.balances, tenant, sel.rows)[..i]
    {
      var stock := SumStock(db.balances, tenant, sel.rows[i].id);
      items := items + [sel.rows[i].(currentStock := stock)];
    }
    cache.Set(key, Page(items, sel.total));
    PageNowShowsStock(cfg, db.products, db.balances, tenant, q);
    return Success(Page(items, sel.total));
  }

  // ---- Writes ----------------------------------------------------------------------------------------------------

  /** The errors of these commands are ignored by every caller. */
  method InvalidateAfterProductWrite(cache: Redis<Blob>, tenant: Id, product: Id)
    modifies cache
    ensures Within(cache.entries, old(cache.entries))
    ensures old(cache.script) == [] ==> cache.script == [] && NoneMatches(cache.entries, PatternProducts(tenant))
  {
    var _ := cache.Delete({KeyProduct(tenant, product)});
    var _ := cache.DeletePattern(PatternProducts(tenant));
    var _ := cache.Delete({KeyDashboardSummary(tenant)});
  }

  method InvalidateAfterCategoryWrite(cache: Redis<Blob>, tenant: Id)
    modifies cache
    ensures Within(cache.entries, old(cache.entries))
    ensures old(cache.script) == [] ==> cache.script == [] && NoneMatches(cache.entries, PatternProducts(tenant))
  {
    var _ := cache.DeletePattern(PatternCategories(tenant));
    var _ := cache.DeletePattern(PatternProducts(tenant));
    var _ := cache.Delete({KeyDashboardSummary(tenant)});
  }

  /** How a write leaves the cache: untouched when it failed, without the tenant's product keys when it succeeded and
      no cache command failed. */
  ghost predicate CacheAfter(succeeded: bool, reliable: bool, before: Entries, after: Entries, tenant: Id) {
    && Within(after, before)
    && (!succeeded ==> after == before)
    && (succeeded && reliable ==> NoneMatches(after, PatternProducts(tenant)))
  }

  /** The category check that precedes the product's own statements. */
  method EnsureCategory(db: Database, categories: set<Id>, category: Option<Id>) returns (r: Result<()>)
    modifies db`budget
    ensures r == Failure(Fault) ==> db.budget == 0
    ensures r != Failure(Fault) ==> r == if CategoryKnown(categories, category) then Success(()) else Failure(NotFound)
    ensures db.budget <= old(db.budget)
  {
    if NonBlank(category).None? {
      return Success(());
    }
    var ok := db.Statement();
    if !ok {
      return Failure(Fault);
    }
    return if NonBlank(category).value in categories then Success(()) else Failure(NotFound);
  }

  method CreateProduct(db: Database, cache: Redis<Blob>, categories: set<Id>, tenant: Id, id: Id, input: ProductUpdate)
    returns (r: Result<View>)
    modifies db`budget, db`products, cache
    ensures r != Failure(Fault) ==>
              var d := CreateDecision(old(db.products), categories, tenant, id, input);
              r == AsView(id, d) && db.products == Stored(old(db.products), id, d)
    ensures r == Failure(Fault) ==> db.budget == 0 && db.products == old(db.products)
    ensures CacheAfter(r.Success?, old(cache.script) == [], old(cache.entries), cache.entries, tenant)
  {
    var sku, name := TrimSpace(OrEmpty(input.sku)), TrimSpace(OrEmpty(input.name));
    if sku == "" || name == "" || !NumbersOk(input) {
      return Failure(Validation);
    }
    var category := EnsureCategory(db, categories, input.category);
    if category.Failure? {
      return Failure(category.error);
    }
    var ok := db.Statement();
    if !ok {
      return Failure(Fault);
    }
    var p := Product(tenant, sku, name, NonBlank(input.category), OrZero(input.reorderLevel), false);
    if !ColumnsHold(input) {
      return Failure(Constraint);
    }
    if id in db.products || SkuTaken(db.products, tenant, sku, id) {
      return Failure(Conflict);
    }
    db.products := db.products[id := p];
    InvalidateAfterProductWrite(cache, tenant, id);
    return Success(View(id, p, 0));
  }

  /** A failure between the UPDATE and the read behind it returns an error without invalidating anything. */
  method UpdateProduct(db: Database, cache: Redis<Blob>, categories: set<Id>, tenant: Id, id: Id, input: ProductUpdate)
    returns (r: Result<View>)
    modifies db`budget, db`products, cache
    ensures var d := UpdateDecision(old(db.products), categories, tenant, id, input);
            && (r != Failure(Fault) ==> r == AsView(id, d) && db.products == Stored(old(db.products), id, d))
            && (r == Failure(Fault) ==>
                  db.budget == 0 && (db.products == old(db.products) || db.products == Stored(old(db.products), id, d)))
    ensures CacheAfter(r.Success?, old(cache.script) == [], old(cache.entries), cache.entries, tenant)
  {
    if id == "" || Blank(input.sku) || Blank(input.name) || !NumbersOk(input) {
      return Failure(Validation);
    }
    var category := EnsureCategory(db, categories, input.category);
    if category.Failure? {
      return Failure(category.error);
    }
    var ok := db.Statement();
    if !ok {
      return Failure(Fault);
    }
    var before := Read(db.products, tenant, id);
    if before.Failure? {
      return Failure(before.error);
    }
    ok := db.Statement();
    if !ok {
      return Failure(Fault);
    }
    ok := db.Statement();
    if !ok {
      return Failure(Fault);
    }
    var p := Updated(before.value.product, input);
    if !ColumnsHold(input) {
      return Failure(Constraint);
    }
    if SkuTaken(db.products, tenant, p.sku, id) {
      return Failure(Conflict);
    }
    db.products := db.products[id := p];
    ok := db.Statement();
    if !ok {
      return Failure(Fault);
    }
    InvalidateAfterProductWrite(cache, tenant, id);
    return Success(View(id, p, 0));
  }

  method DeleteProduct(db: Database, cache: Redis<Blob>, tenant: Id, id: Id) returns (r: Result<()>)
    modifies db`budget, db`products, cache
    ensures var d := DeleteDecision(old(db.products), db.balances, tenant, id);
            && (r != Failure(Fault) ==>
                  r == (if d.Success? then Success(()) else Failure(d.error))
                      && db.products == Stored(old(db.products), id, d))
    ensures r == Failure(Fault) ==> db.budget == 0 && db.products == old(db.products)
    ensures CacheAfter(r.Success?, old(cache.script) == [], old(cache.entries), cache.entries, tenant)
  {
    if id == "" {
      return Failure(Validation);
    }
    var ok := db.Statement();
    if !ok {
      return Failure(Fault);
    }
    var before := Read(db.products, tenant, id);
    if before.Failure? {
      return Failure(before.error);
    }
    ok := db.Statement();
    if !ok {
      return Failure(Fault);
    }
    var positive := set k <- db.balances | k.tenant == tenant && k.product == id && db.balances[k] > 0;
    if positive != {} {
      var k :| k in positive;
      return Failure(ProductHasStock);
    }
    assert forall k <- db.balances :: k !in positive;
    ok := db.Statement();
    if !ok {
      return Failure(Fault);
    }
    db.products := db.products[id := before.value.product.(deleted := true)];
    InvalidateAfterProductWrite(cache, tenant, id);
    return Success(());
  }

  /** Like UpdateProduct, a failure of the read behind the UPDATE skips the invalidation. */
  method RestoreProduct(db: Database, cache: Redis<Blob>, tenant: Id, id: Id) returns (r: Result<View>)
    modifies db`budget, db`products, cache
    ensures var d := RestoreDecision(old(db.products), tenant, id);
            && (r != Failure(Fault) ==> r == AsView(id, d) && db.products == Stored(old(db.products), id, d))
            && (r == Failure(Fault) ==>
                  db.budget == 0 && (db.products == old(db.products) || db.products == Stored(old(db.products), id, d)))
    ensures CacheAfter(r.Success?, old(cache.script) == [], old(cache.entries), cache.entries, tenant)
  {
    if id == "" {
      return Failure(Validation);
    }
    var ok := db.Statement();
    if !ok {
      return Failure(Fault);
    }
    if id !in db.products || db.products[id].tenant != tenant || !db.products[id].deleted {
      return Failure(NotFound);
    }
    db.products := db.products[id := db.products[id].(deleted := false)];
    ok := db.Statement();
    if !ok {
      return Failure(Fault);
    }
    r := Read(db.products, tenant, id);
    InvalidateAfterProductWrite(cache, tenant, id);
  }
}
