/** What inventory ingests keep and produce: conservation of a swap, protection of existing stock,
    isolation of tenants, and the snapshot that a whole run leaves behind. */
module InventoryProperties {
  import opened Common
  import opened Sequences
  import opened Inventory

  // ---------------------------------------------------------------------------------------------
  // One swap
  // ---------------------------------------------------------------------------------------------

  ghost predicate AllOf(rows: seq<StagedRow>, t: Tenant) {
    forall r <- rows :: r.key.tenant == t
  }

  lemma {:induction false} SumOfKept(inventory: seq<InventoryRow>, keep: InventoryRow -> bool, w: Scope, m: Measure)
    requires forall r <- inventory :: w.Has(r.key) ==> keep(r)
    ensures SumInventory(Filter(inventory, keep), w, m) == SumInventory(inventory, w, m)
  {
    if inventory != [] {
      SumOfKept(inventory[1..], keep, w, m);
      if keep(inventory[0]) {
        var rest := Filter(inventory[1..], keep);
        assert ([inventory[0]] + rest)[1..] == rest;
      }
    }
  }

  lemma {:induction false} SumOfNone(inventory: seq<InventoryRow>, w: Scope, m: Measure)
    requires forall r <- inventory :: !w.Has(r.key)
    ensures SumInventory(inventory, w, m) == 0
  {
    if inventory != [] {
      SumOfNone(inventory[1..], w, m);
    }
  }

  lemma SumWithoutTenant(inventory: seq<InventoryRow>, t: Tenant, w: Scope, m: Measure)
    requires w.TenantScope? || w.ProductScope?
    ensures SumInventory(WithoutTenant(inventory, t), w, m)
            == if w.tenant == t then 0 else SumInventory(inventory, w, m)
  {
    if w.tenant == t {
      forall r | r in WithoutTenant(inventory, t)
        ensures !w.Has(r.key)
      {
        FilterMembers(inventory, (r: InventoryRow) => r.key.tenant != t, r);
      }
      SumOfNone(WithoutTenant(inventory, t), w, m);
    } else {
      SumOfKept(inventory, (r: InventoryRow) => r.key.tenant != t, w, m);
    }
  }

  lemma {:induction false} SumOfOneTenant(rows: seq<StagedRow>, t: Tenant, m: Measure)
    requires AllOf(rows, t)
    ensures SumStaged(rows, TenantScope(t), m) == SumStaged(rows, Everything, m)
  {
    if rows != [] {
      SumOfOneTenant(rows[1..], t, m);
    }
  }

  /** A committed swap conserves the tenant's total, available and reserved quantities, overall and per
      product, between the staging table and the inventory table. */
  lemma SwapConserves(db: Db, staging: seq<StagedRow>, b: Batch, w: Scope, m: Measure)
    requires AllOf(OfRun(staging, b.run), b.tenant)
    requires w == TenantScope(b.tenant) || (w.ProductScope? && w.tenant == b.tenant)
    ensures SumInventory(SwapIn(db, staging, b).inventory, w, m) == SumStaged(OfRun(staging, b.run), w, m)
  {
    var staged := OfRun(staging, b.run);
    SumInventoryConcat(WithoutTenant(db.inventory, b.tenant), GroupBy(staged), w, m);
    SumWithoutTenant(db.inventory, b.tenant, w, m);
    GroupByConserves(staged, w, m);
  }

  /** What a product shows after a swap, in terms of the staged rows. */
  function StagedDisplay(staged: seq<StagedRow>, t: Tenant, product: int): int {
    var total := SumWhere(staged, (k: Key) => k.tenant == t && k.product == product, (s: Stock) => s.total);
    if total > 0 then total
    else SumWhere(staged, (k: Key) => k.tenant == t && k.product == product, (s: Stock) => s.available)
  }

  lemma {:induction false} AbsorbedKeyIsListed(groups: seq<InventoryRow>, key: Key, s: Stock, k: Key)
    ensures (exists r <- Absorb(groups, key, s) :: r.key == k) <==> k == key || exists r <- groups :: r.key == k
  {
    if groups == [] {
      assert InventoryRow(key, s) in [InventoryRow(key, s)];
    } else {
      var rest := groups[1..];
      assert groups == [groups[0]] + rest;
      if groups[0].key == key {
        var merged := InventoryRow(key, Combine(groups[0].stock, s));
        assert Absorb(groups, key, s) == [merged] + rest;
        assert merged in [merged] + rest;
      } else {
        AbsorbedKeyIsListed(rest, key, s, k);
        assert Absorb(groups, key, s) == [groups[0]] + Absorb(rest, key, s);
      }
    }
  }

  lemma {:induction false} GroupedKeysAreStagedKeys(rows: seq<StagedRow>, k: Key)
    ensures (exists r <- GroupBy(rows) :: r.key == k) <==> exists s <- rows :: s.key == k
  {
    if rows != [] {
      var init, last := rows[..|rows| - 1], rows[|rows| - 1];
      GroupedKeysAreStagedKeys(init, k);
      AbsorbedKeyIsListed(GroupBy(init), last.key, last.stock, k);
      assert rows == init + [last];
    }
  }

  lemma ListedAfterSwap(db: Db, staging: seq<StagedRow>, b: Batch, p: ProductKey)
    requires AllOf(OfRun(staging, b.run), b.tenant) && p.tenant == b.tenant
    ensures Listed(SwapIn(db, staging, b).inventory, p)
            <==> exists s <- OfRun(staging, b.run) :: s.key.product == p.product
  {
    var staged, kept := OfRun(staging, b.run), WithoutTenant(db.inventory, b.tenant);
    var inventory := kept + GroupBy(staged);
    if Listed(inventory, p) {
      var i :| 0 <= i < |inventory| && inventory[i].key.tenant == p.tenant && inventory[i].key.product == p.product;
      FilterMembers(db.inventory, (r: InventoryRow) => r.key.tenant != b.tenant, inventory[i]);
      assert inventory[i] in GroupBy(staged);
      GroupedKeysAreStagedKeys(staged, inventory[i].key);
    }
    if s :| s in staged && s.key.product == p.product {
      GroupedKeysAreStagedKeys(staged, s.key);
      var r :| r in GroupBy(staged) && r.key == s.key;
      assert r in inventory;
    }
  }

  /** Every product of the tenant that occurs in the staged rows shows the display rule applied to those
      rows; the tenant's other products, and products of other tenants, are left alone. */
  lemma SwapRefreshesProducts(db: Db, staging: seq<StagedRow>, b: Batch, p: ProductKey)
    requires AllOf(OfRun(staging, b.run), b.tenant) && p in db.products
    ensures var db', staged := SwapIn(db, staging, b), OfRun(staging, b.run);
            && p in db'.products
            && db'.products[p] == if p.tenant == b.tenant && (exists s <- staged :: s.key.product == p.product)
                                  then StagedDisplay(staged, b.tenant, p.product)
                                  else db.products[p]
  {
    if p.tenant == b.tenant {
      ListedAfterSwap(db, staging, b, p);
      SumsAreColumns(OfRun(staging, b.run), b.tenant, p.product);
      SwapConserves(db, staging, b, ProductScope(b.tenant, p.product), Total);
      SwapConserves(db, staging, b, ProductScope(b.tenant, p.product), Available);
    }
  }

  // ---------------------------------------------------------------------------------------------
  // Existing stock is protected
  // ---------------------------------------------------------------------------------------------

  ghost predicate NonNegative(rows: seq<StagedRow>) {
    forall r <- rows :: r.stock.total >= 0 && r.stock.available >= 0
  }

  lemma {:induction false} NonNegativeSums(rows: seq<StagedRow>, w: Scope, m: Measure)
    requires NonNegative(rows) && m != Reserved
    ensures SumStaged(rows, w, m) >= 0
  {
    if rows != [] {
      NonNegativeSums(rows[1..], w, m);
    }
  }

  /** Run ids are unique, so a run belongs to one tenant; `owner` says to which. */
  ghost predicate Owned(staging: seq<StagedRow>, owner: RunId -> Tenant) {
    forall r <- staging :: r.key.tenant == owner(r.run)
  }

  lemma OfRunRows(staging: seq<StagedRow>, run: RunId)
    ensures forall r <- OfRun(staging, run) :: r in staging && r.run == run
    ensures forall r <- WithoutRun(staging, run) :: r in staging && r.run != run
  {
    forall r | r in OfRun(staging, run)
      ensures r in staging && r.run == run
    {
      FilterMembers(staging, (r: StagedRow) => r.run == run, r);
    }
    forall r | r in WithoutRun(staging, run)
      ensures r in staging && r.run != run
    {
      FilterMembers(staging, (r: StagedRow) => r.run != run, r);
    }
  }

  lemma StageKeeps(staging: seq<StagedRow>, b: Batch, owner: RunId -> Tenant)
    requires Owned(staging, owner) && owner(b.run) == b.tenant
    ensures Owned(Stage(staging, b), owner) && AllOf(OfRun(Stage(staging, b), b.run), b.tenant)
    ensures Owned(WithoutRun(Stage(staging, b), b.run), owner)
    ensures NonNegative(staging) && NonNegative(Stamp(b.rows, b.run, b.tenant)) ==>
              && NonNegative(Stage(staging, b))
              && NonNegative(OfRun(Stage(staging, b), b.run))
              && NonNegative(WithoutRun(Stage(staging, b), b.run))
  {
    OfRunRows(staging, b.run);
    OfRunRows(Stage(staging, b), b.run);
  }

  datatype Arrival = Arrival(batch: Batch, commits: bool)

  ghost predicate Sound(a: Arrival, owner: RunId -> Tenant) {
    && owner(a.batch.run) == a.batch.tenant
    && NonNegative(Stamp(a.batch.rows, a.batch.run, a.batch.tenant))
  }

  lemma IngestProtectsStock(db: Db, cfg: Config, a: Arrival, owner: RunId -> Tenant, t: Tenant)
    requires cfg.policy == Verify && Owned(db.staging, owner) && NonNegative(db.staging) && Sound(a, owner)
    ensures var db' := Ingest(db, cfg, a.batch, a.commits).0;
            && Owned(db'.staging, owner) && NonNegative(db'.staging)
            && (HasStock(db.inventory, t) ==> HasStock(db'.inventory, t))
  {
    var b := a.batch;
    var staging := Stage(db.staging, b);
    var staged := OfRun(staging, b.run);
    StageKeeps(db.staging, b, owner);
    var (db', outcome) := Ingest(db, cfg, b, a.commits);
    if outcome == Committed && b.rows != [] && b.IsLast() {
      forall m
        ensures SumInventory(db'.inventory, TenantScope(t), m)
                == if t == b.tenant then SumStaged(staged, Everything, m)
                  else SumInventory(db.inventory, TenantScope(t), m)
      {
        SwapLeavesOthers(db, staging, b, t, m);
        if t == b.tenant {
          SwapConserves(db, staging, b, TenantScope(t), m);
          SumOfOneTenant(staged, t, m);
        }
      }
      NonNegativeSums(staged, Everything, Total);
      NonNegativeSums(staged, Everything, Available);
    }
  }

  lemma SwapLeavesOthers(db: Db, staging: seq<StagedRow>, b: Batch, t: Tenant, m: Measure)
    requires AllOf(OfRun(staging, b.run), b.tenant)
    ensures t != b.tenant ==>
              SumInventory(SwapIn(db, staging, b).inventory, TenantScope(t), m)
                == SumInventory(db.inventory, TenantScope(t), m)
  {
    var staged := OfRun(staging, b.run);
    SumInventoryConcat(WithoutTenant(db.inventory, b.tenant), GroupBy(staged), TenantScope(t), m);
    SumWithoutTenant(db.inventory, b.tenant, TenantScope(t), m);
    GroupByConserves(staged, TenantScope(t), m);
    if t != b.tenant {
      SumOfOtherTenant(staged, b.tenant, t, m);
    }
  }

  lemma {:induction false} SumOfOtherTenant(rows: seq<StagedRow>, t: Tenant, other: Tenant, m: Measure)
    requires AllOf(rows, t) && other != t
    ensures SumStaged(rows, TenantScope(other), m) == 0
  {
    if rows != [] {
      SumOfOtherTenant(rows[1..], t, other, m);
    }
  }

  ghost function IngestAll(db: Db, cfg: Config, arrivals: seq<Arrival>): Db
    decreases |arrivals|
  {
    if arrivals == [] then db
    else IngestAll(Ingest(db, cfg, arrivals[0].batch, arrivals[0].commits).0, cfg, arrivals[1..])
  }

  lemma {:induction false} IngestAllConcat(db: Db, cfg: Config, a: seq<Arrival>, b: seq<Arrival>)
    ensures IngestAll(db, cfg, a + b) == IngestAll(IngestAll(db, cfg, a), cfg, b)
    decreases |a|
  {
    if a == [] {
      assert a + b == b;
    } else {
      IngestAllConcat(Ingest(db, cfg, a[0].batch, a[0].commits).0, cfg, a[1..], b);
      assert (a + b)[1..] == a[1..] + b;
    }
  }

  /** With non-negative rows and policy `verify`, no sequence of ingests of any tenants takes a tenant
      from positive stock to an empty or all-zero inventory. */
  lemma {:induction false} StockIsNeverWiped(db: Db, cfg: Config, arrivals: seq<Arrival>, owner: RunId -> Tenant,
                                             t: Tenant)
    requires cfg.policy == Verify && Owned(db.staging, owner) && NonNegative(db.staging)
    requires forall a <- arrivals :: Sound(a, owner)
    requires HasStock(db.inventory, t)
    ensures HasStock(IngestAll(db, cfg, arrivals).inventory, t)
    decreases |arrivals|
  {
    if arrivals != [] {
      IngestProtectsStock(db, cfg, arrivals[0], owner, t);
      StockIsNeverWiped(Ingest(db, cfg, arrivals[0].batch, arrivals[0].commits).0, cfg, arrivals[1..], owner, t);
    }
  }
}
