/** The tables seen by one tenant, and why ingests for other tenants do not touch them. */
module TenantIsolation {
  import opened Common
  import opened Sequences
  import opened Inventory
  import opened InventoryProperties

  function InventoryOf(inventory: seq<InventoryRow>, t: Tenant): seq<InventoryRow> {
    Filter(inventory, (r: InventoryRow) => r.key.tenant == t)
  }

  function StagingOf(staging: seq<StagedRow>, t: Tenant): seq<StagedRow> {
    Filter(staging, (r: StagedRow) => r.key.tenant == t)
  }

  function ProductsOf(products: map<ProductKey, int>, t: Tenant): map<ProductKey, int> {
    map p | p in products && p.tenant == t :: products[p]
  }

  function View(db: Db, t: Tenant): Db {
    Db(StagingOf(db.staging, t), InventoryOf(db.inventory, t), ProductsOf(db.products, t))
  }

  lemma GroupsBelongTo(rows: seq<StagedRow>, t: Tenant)
    requires AllOf(rows, t)
    ensures forall r <- GroupBy(rows) :: r.key.tenant == t
  {
    forall r | r in GroupBy(rows)
      ensures r.key.tenant == t
    {
      GroupedKeysAreStagedKeys(rows, r.key);
    }
  }

  lemma OwnRowsOfRun(staging: seq<StagedRow>, run: RunId, owner: RunId -> Tenant)
    requires Owned(staging, owner)
    ensures OfRun(StagingOf(staging, owner(run)), run) == OfRun(staging, run)
    ensures WithoutRun(StagingOf(staging, owner(run)), run) == StagingOf(WithoutRun(staging, run), owner(run))
    ensures AllOf(OfRun(staging, run), owner(run))
  {
    var t := owner(run);
    var mine, ofRun, notRun := (r: StagedRow) => r.key.tenant == t, (r: StagedRow) => r.run == run,
        (r: StagedRow) => r.run != run;
    FilterSwap(staging, mine, ofRun);
    FilterWeaker(staging, ofRun, mine);
    FilterSwap(staging, mine, notRun);
    OfRunRows(staging, run);
  }

  lemma StageInView(staging: seq<StagedRow>, b: Batch, owner: RunId -> Tenant)
    requires Owned(staging, owner) && owner(b.run) == b.tenant
    ensures Stage(StagingOf(staging, b.tenant), b) == StagingOf(Stage(staging, b), b.tenant)
    ensures forall u :: u != b.tenant ==> StagingOf(Stage(staging, b), u) == StagingOf(staging, u)
  {
    var base, added := if b.index == 0 then WithoutRun(staging, b.run) else staging, Stamp(b.rows, b.run, b.tenant);
    var notRun := (r: StagedRow) => r.run != b.run;
    OwnRowsOfRun(staging, b.run, owner);
    forall u
      ensures StagingOf(Stage(staging, b), u) == StagingOf(base, u) + if u == b.tenant then added else []
      ensures u != b.tenant ==> StagingOf(base, u) == StagingOf(staging, u)
    {
      var mine := (r: StagedRow) => r.key.tenant == u;
      FilterConcat(base, added, mine);
      if u == b.tenant {
        FilterAll(added, mine);
      } else {
        FilterNone(added, mine);
        FilterSwap(staging, notRun, mine);
        FilterWeaker(staging, mine, notRun);
      }
    }
  }

  lemma SwapInView(db: Db, staging: seq<StagedRow>, b: Batch, owner: RunId -> Tenant)
    requires Owned(staging, owner) && owner(b.run) == b.tenant
    ensures InventoryOf(SwapIn(db, staging, b).inventory, b.tenant) == GroupBy(OfRun(staging, b.run))
    ensures SwapIn(View(db, b.tenant), StagingOf(staging, b.tenant), b).inventory == GroupBy(OfRun(staging, b.run))
    ensures forall u :: u != b.tenant ==>
              InventoryOf(SwapIn(db, staging, b).inventory, u) == InventoryOf(db.inventory, u)
  {
    var t, groups := b.tenant, GroupBy(OfRun(staging, b.run));
    var others := (r: InventoryRow) => r.key.tenant != t;
    OwnRowsOfRun(staging, b.run, owner);
    GroupsBelongTo(OfRun(staging, b.run), t);
    forall u
      ensures InventoryOf(SwapIn(db, staging, b).inventory, u) == if u == t then groups
              else InventoryOf(db.inventory, u)
    {
      var mine := (r: InventoryRow) => r.key.tenant == u;
      FilterConcat(WithoutTenant(db.inventory, t), groups, mine);
      if u == t {
        FilterDisjoint(db.inventory, others, mine);
        FilterAll(groups, mine);
      } else {
        FilterSwap(db.inventory, others, mine);
        FilterWeaker(db.inventory, mine, others);
        FilterNone(groups, mine);
      }
    }
    FilterDisjoint(db.inventory, (r: InventoryRow) => r.key.tenant == t, others);
  }

  lemma DisplayInView(inventory: seq<InventoryRow>, t: Tenant, product: int)
    ensures DisplayStock(InventoryOf(inventory, t), t, product) == DisplayStock(inventory, t, product)
    ensures Listed(InventoryOf(inventory, t), ProductKey(t, product)) <==> Listed(inventory, ProductKey(t, product))
  {
    var mine := (r: InventoryRow) => r.key.tenant == t;
    SumOfKept(inventory, mine, ProductScope(t, product), Total);
    SumOfKept(inventory, mine, ProductScope(t, product), Available);
    var view, p := InventoryOf(inventory, t), ProductKey(t, product);
    if Listed(inventory, p) {
      var i :| 0 <= i < |inventory| && inventory[i].key.tenant == p.tenant && inventory[i].key.product == p.product;
      FilterMembers(inventory, mine, inventory[i]);
    }
    if Listed(view, p) {
      var i :| 0 <= i < |view| && view[i].key.tenant == p.tenant && view[i].key.product == p.product;
      FilterMembers(inventory, mine, view[i]);
    }
  }

  lemma RefreshInView(products: map<ProductKey, int>, inventory: seq<InventoryRow>, t: Tenant)
    ensures ProductsOf(RefreshProducts(products, inventory, t), t)
            == RefreshProducts(ProductsOf(products, t), InventoryOf(inventory, t), t)
    ensures forall u :: u != t ==> ProductsOf(RefreshProducts(products, inventory, t), u) == ProductsOf(products, u)
  {
    forall p | p in products && p.tenant == t
      ensures DisplayStock(InventoryOf(inventory, t), t, p.product) == DisplayStock(inventory, t, p.product)
      ensures Listed(InventoryOf(inventory, t), p) <==> Listed(inventory, p)
    {
      DisplayInView(inventory, t, p.product);
    }
  }

  /** An ingest for a tenant sees and changes only that tenant's part of the tables. */
  lemma IngestIsLocal(db: Db, cfg: Config, a: Arrival, owner: RunId -> Tenant)
    requires Owned(db.staging, owner) && owner(a.batch.run) == a.batch.tenant
    ensures var b := a.batch;
            var (db', outcome) := Ingest(db, cfg, b, a.commits);
            && (View(db', b.tenant), outcome) == Ingest(View(db, b.tenant), cfg, b, a.commits)
            && (forall u :: u != b.tenant ==> View(db', u) == View(db, u))
            && Owned(db'.staging, owner)
  {
    var b := a.batch;
    var t, staging := b.tenant, Stage(db.staging, b);
    var swapped := SwapIn(db, staging, b);
    StageInView(db.staging, b, owner);
    StageKeeps(db.staging, b, owner);
    OwnRowsOfRun(staging, b.run, owner);
    SwapInView(db, staging, b, owner);
    RefreshInView(db.products, swapped.inventory, t);
    SumOfKept(db.inventory, (r: InventoryRow) => r.key.tenant == t, TenantScope(t), Total);
    SumOfKept(db.inventory, (r: InventoryRow) => r.key.tenant == t, TenantScope(t), Available);
    OthersKeepStaging(staging, b, owner);
  }

  lemma OthersKeepStaging(staging: seq<StagedRow>, b: Batch, owner: RunId -> Tenant)
    requires Owned(staging, owner) && owner(b.run) == b.tenant
    ensures forall u :: u != b.tenant ==> StagingOf(WithoutRun(staging, b.run), u) == StagingOf(staging, u)
  {
    var notRun := (r: StagedRow) => r.run != b.run;
    forall u | u != b.tenant
      ensures StagingOf(WithoutRun(staging, b.run), u) == StagingOf(staging, u)
    {
      var mine := (r: StagedRow) => r.key.tenant == u;
      FilterSwap(staging, notRun, mine);
      FilterWeaker(staging, mine, notRun);
    }
  }
}
