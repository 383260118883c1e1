/** Ingest of inventory snapshots: rows are staged under the id of their run and, on the batch flagged
    last, replace the tenant's inventory in one transaction.  SQL tables are sequences of rows; a
    statement is an operation on them.  Quantities are exact integers. */
module Inventory {
  import opened Common
  import opened Sequences

  type RunId = nat

  datatype StockRow = StockRow(product: int, warehouse: int, stock: Stock)

  datatype Stock = Stock(available: int, reserved: int, total: int, reorderPoint: int, isLow: bool)

  datatype Key = Key(tenant: Tenant, product: int, warehouse: int)

  datatype StagedRow = StagedRow(run: RunId, key: Key, stock: Stock)

  datatype InventoryRow = InventoryRow(key: Key, stock: Stock)

  datatype ProductKey = ProductKey(tenant: Tenant, product: int)

  /** The three tables an inventory ingest touches. */
  datatype Db = Db(staging: seq<StagedRow>, inventory: seq<InventoryRow>, products: map<ProductKey, int>)

  datatype Measure = Available | Reserved | Total

  function Value(s: Stock, m: Measure): int {
    match m
    case Available => s.available
    case Reserved => s.reserved
    case Total => s.total
  }

  // ---------------------------------------------------------------------------------------------
  // SUM and GROUP BY
  // ---------------------------------------------------------------------------------------------

  /** Which rows a `WHERE` clause selects. */
  datatype Scope = Everything | TenantScope(tenant: Tenant) | ProductScope(tenant: Tenant, product: int) {
    predicate Has(k: Key) {
      match this
      case Everything => true
      case TenantScope(t) => k.tenant == t
      case ProductScope(t, p) => k.tenant == t && k.product == p
    }
  }

  function SumStaged(rows: seq<StagedRow>, w: Scope, m: Measure): int {
    if rows == [] then 0
    else (if w.Has(rows[0].key) then Value(rows[0].stock, m) else 0) + SumStaged(rows[1..], w, m)
  }

  function SumInventory(rows: seq<InventoryRow>, w: Scope, m: Measure): int {
    if rows == [] then 0
    else (if w.Has(rows[0].key) then Value(rows[0].stock, m) else 0) + SumInventory(rows[1..], w, m)
  }

  function Combine(a: Stock, b: Stock): Stock {
    Stock(a.available + b.available, a.reserved + b.reserved, a.total + b.total,
          if a.reorderPoint < b.reorderPoint then b.reorderPoint else a.reorderPoint,
          a.isLow || b.isLow)
  }

  /** Add one row to its group, or open a new group. */
  function Absorb(groups: seq<InventoryRow>, key: Key, s: Stock): seq<InventoryRow> {
    if groups == [] then [InventoryRow(key, s)]
    else if groups[0].key == key then [InventoryRow(key, Combine(groups[0].stock, s))] + groups[1..]
    else [groups[0]] + Absorb(groups[1..], key, s)
  }

  /** `SELECT tenant, product, warehouse, SUM(..), SUM(..), SUM(..), MAX(..), BOOL_OR(..) GROUP BY ...` */
  function GroupBy(rows: seq<StagedRow>): seq<InventoryRow> {
    if rows == [] then []
    else
      var last := rows[|rows| - 1];
      Absorb(GroupBy(rows[..|rows| - 1]), last.key, last.stock)
  }

  function OfKey(rows: seq<StagedRow>, key: Key): seq<StagedRow> {
    if rows == [] then []
    else
      var last := rows[|rows| - 1];
      OfKey(rows[..|rows| - 1], key) + if last.key == key then [last] else []
  }

  function Aggregate(rows: seq<StagedRow>): Stock
    requires rows != []
  {
    var last := rows[|rows| - 1].stock;
    if |rows| == 1 then last else Combine(Aggregate(rows[..|rows| - 1]), last)
  }

  function Find(rows: seq<InventoryRow>, key: Key): Option<Stock> {
    if rows == [] then None
    else if rows[0].key == key then Some(rows[0].stock)
    else Find(rows[1..], key)
  }

  ghost predicate UniqueKeys(rows: seq<InventoryRow>) {
    forall i, j :: 0 <= i < j < |rows| ==> rows[i].key != rows[j].key
  }

  lemma {:induction false} AbsorbFind(groups: seq<InventoryRow>, key: Key, s: Stock, k: Key)
    ensures Find(Absorb(groups, key, s), k) ==
            if k != key then Find(groups, k)
            else match Find(groups, key)
                 case None => Some(s)
                 case Some(group) => Some(Combine(group, s))
  {
    if groups != [] && groups[0].key != key {
      AbsorbFind(groups[1..], key, s, k);
    }
  }

  lemma {:induction false} AbsorbKeys(groups: seq<InventoryRow>, key: Key, s: Stock)
    requires UniqueKeys(groups)
    ensures UniqueKeys(Absorb(groups, key, s))
    ensures forall r <- Absorb(groups, key, s) :: r.key == key || exists g <- groups :: g.key == r.key
  {
    if groups != [] {
      if groups[0].key == key {
        assert groups == [groups[0]] + groups[1..];
      } else {
        AbsorbKeys(groups[1..], key, s);
        assert groups == [groups[0]] + groups[1..];
        assert forall g <- groups[1..] :: g.key != groups[0].key;
      }
    }
  }

  /** Grouping yields one row per key that occurs, holding exactly the aggregate of the rows of that key. */
  lemma {:induction false} GroupByIsAggregation(rows: seq<StagedRow>, key: Key)
    ensures UniqueKeys(GroupBy(rows))
    ensures Find(GroupBy(rows), key) == if OfKey(rows, key) == [] then None else Some(Aggregate(OfKey(rows, key)))
  {
    if rows != [] {
      var init, last := rows[..|rows| - 1], rows[|rows| - 1];
      GroupByIsAggregation(init, key);
      AbsorbFind(GroupBy(init), last.key, last.stock, key);
      AbsorbKeys(GroupBy(init), last.key, last.stock);
      var before := OfKey(init, key);
      if last.key == key {
        assert OfKey(rows, key) == before + [last] && (before + [last])[..|before|] == before;
      } else {
        assert OfKey(rows, key) == before;
      }
    }
  }

  lemma SumStagedOne(r: StagedRow, w: Scope, m: Measure)
    ensures SumStaged([r], w, m) == if w.Has(r.key) then Value(r.stock, m) else 0
  {
    assert [r][1..] == [];
  }

  lemma {:induction false} SumStagedConcat(a: seq<StagedRow>, b: seq<StagedRow>, w: Scope, m: Measure)
    ensures SumStaged(a + b, w, m) == SumStaged(a, w, m) + SumStaged(b, w, m)
  {
    if a == [] {
      assert a + b == b;
    } else {
      SumStagedConcat(a[1..], b, w, m);
      assert (a + b)[1..] == a[1..] + b;
    }
  }

  lemma {:induction false} SumInventoryConcat(a: seq<InventoryRow>, b: seq<InventoryRow>, w: Scope, m: Measure)
    ensures SumInventory(a + b, w, m) == SumInventory(a, w, m) + SumInventory(b, w, m)
  {
    if a == [] {
      assert a + b == b;
    } else {
      SumInventoryConcat(a[1..], b, w, m);
      assert (a + b)[1..] == a[1..] + b;
    }
  }

  /** The aggregate in terms of its rows: sums, the largest reorder point, and whether any row is low. */
  lemma {:induction false} AggregateMeaning(rows: seq<StagedRow>, m: Measure)
    requires rows != []
    ensures Value(Aggregate(rows), m) == SumStaged(rows, Everything, m)
    ensures forall r <- rows :: r.stock.reorderPoint <= Aggregate(rows).reorderPoint
    ensures exists r <- rows :: r.stock.reorderPoint == Aggregate(rows).reorderPoint
    ensures Aggregate(rows).isLow <==> exists r <- rows :: r.stock.isLow
  {
    var init, last := rows[..|rows| - 1], rows[|rows| - 1];
    assert rows == init + [last];
    SumStagedConcat(init, [last], Everything, m);
    SumStagedOne(last, Everything, m);
    if |rows| > 1 {
      AggregateMeaning(init, m);
      assert forall r <- rows :: r in init || r == last;
      assert forall r <- init :: r in rows;
    } else {
      assert init == [];
    }
    assert last in rows;
  }

  lemma {:induction false} AbsorbSum(groups: seq<InventoryRow>, key: Key, s: Stock, w: Scope, m: Measure)
    ensures SumInventory(Absorb(groups, key, s), w, m)
            == SumInventory(groups, w, m) + if w.Has(key) then Value(s, m) else 0
  {
    if groups == [] {
      assert [InventoryRow(key, s)][1..] == [];
    } else if groups[0].key == key {
      assert Absorb(groups, key, s)[1..] == groups[1..];
    } else {
      AbsorbSum(groups[1..], key, s, w, m);
      assert Absorb(groups, key, s)[1..] == Absorb(groups[1..], key, s);
    }
  }

  /** Grouping conserves every sum over every selection of keys. */
  lemma {:induction false} GroupByConserves(rows: seq<StagedRow>, w: Scope, m: Measure)
    ensures SumInventory(GroupBy(rows), w, m) == SumStaged(rows, w, m)
  {
    if rows != [] {
      var init, last := rows[..|rows| - 1], rows[|rows| - 1];
      GroupByConserves(init, w, m);
      AbsorbSum(GroupBy(init), last.key, last.stock, w, m);
      assert rows == init + [last];
      SumStagedConcat(init, [last], w, m);
      SumStagedOne(last, w, m);
    }
  }

  // ---------------------------------------------------------------------------------------------
  // Guards
  // ---------------------------------------------------------------------------------------------

  datatype StockStatus =
    | PositiveStockConfirmed | PositiveStock | ConfirmedZeroStock | UnverifiedZeroStock
    | SourceConflict | NoValidSource

  /** The source metadata of a batch; a field the engine did not send is `None`. */
  datatype Metadata = Metadata(safeToSync: Option<bool>, stockStatus: Option<StockStatus>)

  datatype Policy = Verify | Allow

  datatype Config = Config(requireMetadata: bool, policy: Policy)

  predicate MetadataSafe(cfg: Config, metadata: Option<Metadata>) {
    match metadata
    case None => !cfg.requireMetadata
    case Some(md) =>
      && md.safeToSync != Some(false)
      && md.stockStatus !in {Some(SourceConflict), Some(NoValidSource), Some(UnverifiedZeroStock)}
      && (md.stockStatus == Some(ConfirmedZeroStock) ==> cfg.policy == Allow)
  }

  /** Which batches are accepted: without metadata if none is required, otherwise those that are not called unsafe and
      whose stock is positive, or confirmed to be zero where the policy allows that, or not described. */
  lemma MetadataMeaning(cfg: Config, metadata: Option<Metadata>)
    ensures metadata.None? ==> (MetadataSafe(cfg, metadata) <==> !cfg.requireMetadata)
    ensures metadata.Some? ==>
              var md := metadata.value;
              MetadataSafe(cfg, metadata) <==>
              && (md.safeToSync.Some? ==> md.safeToSync.value)
              && (md.stockStatus.Some? ==>
                    || md.stockStatus.value.PositiveStock? || md.stockStatus.value.PositiveStockConfirmed?
                    || (md.stockStatus.value.ConfirmedZeroStock? && cfg.policy.Allow?))
  {
  }

  predicate HasStock(inventory: seq<InventoryRow>, t: Tenant) {
    SumInventory(inventory, TenantScope(t), Total) > 0 || SumInventory(inventory, TenantScope(t), Available) > 0
  }

  /** May the staged rows replace the tenant's inventory? */
  predicate SwapSafe(cfg: Config, staged: seq<StagedRow>, inventory: seq<InventoryRow>, t: Tenant) {
    && |staged| > 0
    && (SumStaged(staged, Everything, Total) == 0 && SumStaged(staged, Everything, Available) == 0 ==>
          cfg.policy == Allow || !HasStock(inventory, t))
  }

  // ---------------------------------------------------------------------------------------------
  // One batch
  // ---------------------------------------------------------------------------------------------

  datatype Batch = Batch(tenant: Tenant, run: RunId, index: nat, totalBatches: nat,
                         rows: seq<StockRow>, metadata: Option<Metadata>)
  {
    predicate IsLast() {
      index == totalBatches - 1
    }
  }

  datatype Outcome = Committed | Rejected | Failed

  function Stamp(rows: seq<StockRow>, run: RunId, t: Tenant): seq<StagedRow> {
    seq(|rows|, i requires 0 <= i < |rows| =>
      StagedRow(run, Key(t, rows[i].product, rows[i].warehouse), rows[i].stock))
  }

  function OfRun(staging: seq<StagedRow>, run: RunId): seq<StagedRow> {
    Filter(staging, (r: StagedRow) => r.run == run)
  }

  function WithoutRun(staging: seq<StagedRow>, run: RunId): seq<StagedRow> {
    Filter(staging, (r: StagedRow) => r.run != run)
  }

  function WithoutTenant(inventory: seq<InventoryRow>, t: Tenant): seq<InventoryRow> {
    Filter(inventory, (r: InventoryRow) => r.key.tenant != t)
  }

  /** A product shows its total stock, or what is available when no total is recorded. */
  function DisplayStock(inventory: seq<InventoryRow>, t: Tenant, product: int): int {
    var total := SumInventory(inventory, ProductScope(t, product), Total);
    if total > 0 then total else SumInventory(inventory, ProductScope(t, product), Available)
  }

  predicate Listed(inventory: seq<InventoryRow>, p: ProductKey) {
    exists i :: 0 <= i < |inventory| && inventory[i].key.tenant == p.tenant && inventory[i].key.product == p.product
  }

  function RefreshProducts(products: map<ProductKey, int>, inventory: seq<InventoryRow>, t: Tenant)
    : map<ProductKey, int>
  {
    map p | p in products ::
      if p.tenant == t && Listed(inventory, p) then DisplayStock(inventory, t, p.product) else products[p]
  }

  /** The staging table once a batch is staged: the first batch of a run clears what the run left before. */
  function Stage(staging: seq<StagedRow>, b: Batch): seq<StagedRow> {
    (if b.index == 0 then WithoutRun(staging, b.run) else staging) + Stamp(b.rows, b.run, b.tenant)
  }

  function SwapIn(db: Db, staging: seq<StagedRow>, b: Batch): Db {
    var inventory := WithoutTenant(db.inventory, b.tenant) + GroupBy(OfRun(staging, b.run));
    Db(WithoutRun(staging, b.run), inventory, RefreshProducts(db.products, inventory, b.tenant))
  }

  /** One ingest; `commits` says whether the database lets the transaction through. */
  function Ingest(db: Db, cfg: Config, b: Batch, commits: bool): (Db, Outcome) {
    if !MetadataSafe(cfg, b.metadata) then (db, Rejected)
    else if b.rows == [] then (db, if commits then Committed else Failed)
    else
      var staging := Stage(db.staging, b);
      if b.IsLast() && !SwapSafe(cfg, OfRun(staging, b.run), db.inventory, b.tenant) then (db, Rejected)
      else if !commits then (db, Failed)
      else (if b.IsLast() then SwapIn(db, staging, b) else db.(staging := staging), Committed)
  }

  /** The sum of a column over the staged rows of which a test holds. */
  function SumWhere(rows: seq<StagedRow>, test: Key -> bool, column: Stock -> int): int {
    if rows == [] then 0
    else (if test(rows[0].key) then column(rows[0].stock) else 0) + SumWhere(rows[1..], test, column)
  }

  /** The measures are columns and the scopes are tests of the key. */
  lemma {:induction false} SumsAreColumns(rows: seq<StagedRow>, t: Tenant, p: int)
    ensures SumStaged(rows, Everything, Total) == SumWhere(rows, (k: Key) => true, (s: Stock) => s.total)
    ensures SumStaged(rows, Everything, Available) == SumWhere(rows, (k: Key) => true, (s: Stock) => s.available)
    ensures SumStaged(rows, Everything, Reserved) == SumWhere(rows, (k: Key) => true, (s: Stock) => s.reserved)
    ensures SumStaged(rows, TenantScope(t), Total) == SumWhere(rows, (k: Key) => k.tenant == t, (s: Stock) => s.total)
    ensures SumStaged(rows, ProductScope(t, p), Total) ==
            SumWhere(rows, (k: Key) => k.tenant == t && k.product == p, (s: Stock) => s.total)
    ensures SumStaged(rows, ProductScope(t, p), Available) ==
            SumWhere(rows, (k: Key) => k.tenant == t && k.product == p, (s: Stock) => s.available)
  {
    if rows != [] {
      SumsAreColumns(rows[1..], t, p);
    }
  }

  /** What comes of an ingest, on the tables before it: it is rejected when its metadata is not accepted, and a last
      batch also when nothing is staged or, under policy verify, when the staged rows show no stock and the tenant's
      inventory does; it fails when the database lets it; and only a committed one changes the tables. */
  lemma IngestMeaning(db: Db, cfg: Config, b: Batch, commits: bool)
    ensures var (db', outcome) := Ingest(db, cfg, b, commits);
            var staged := OfRun(Stage(db.staging, b), b.run);
            var blank := SumWhere(staged, (k: Key) => true, (s: Stock) => s.total) == 0
                         && SumWhere(staged, (k: Key) => true, (s: Stock) => s.available) == 0;
            var stocked := SumInventory(db.inventory, TenantScope(b.tenant), Total) > 0
                           || SumInventory(db.inventory, TenantScope(b.tenant), Available) > 0;
            var wipes := staged == [] || (blank && stocked && cfg.policy == Verify);
            && (outcome == Rejected <==>
                  !MetadataSafe(cfg, b.metadata) || (b.rows != [] && b.index + 1 == b.totalBatches && wipes))
            && (outcome == Committed <==> outcome != Rejected && commits)
            && (outcome != Committed || b.rows == [] ==> db' == db)
            && (outcome == Committed && b.rows != [] && b.index + 1 != b.totalBatches ==>
                  db' == db.(staging := Stage(db.staging, b)))
  {
    SumsAreColumns(OfRun(Stage(db.staging, b), b.run), b.tenant, 0);
  }

  class IngestService {
    const cfg: Config
    var staging: seq<StagedRow>
    var inventory: seq<InventoryRow>
    var products: map<ProductKey, int>

    function State(): Db
      reads this
    {
      Db(staging, inventory, products)
    }

    constructor (cfg: Config, db: Db)
      ensures this.cfg == cfg && State() == db
    {
      this.cfg := cfg;
      staging, inventory, products := db.staging, db.inventory, db.products;
    }

    /** The inventory branch of the upsert, statement by statement inside the transaction.  It stops at
        the swap guard when the staged snapshot must not replace what is there. */
    method UpsertInventory(b: Batch) returns (safe: bool)
      requires b.rows != []
      modifies this
      ensures safe == (b.IsLast() ==> SwapSafe(cfg, OfRun(Stage(old(staging), b), b.run), old(inventory), b.tenant))
      ensures safe ==> State() == if b.IsLast() then SwapIn(old(State()), Stage(old(staging), b), b)
                                  else old(State()).(staging := Stage(old(staging), b))
    {
      if b.index == 0 {
        staging := WithoutRun(staging, b.run);
      }
      staging := staging + Stamp(b.rows, b.run, b.tenant);
      if b.IsLast() {
        var staged := OfRun(staging, b.run);
        if !SwapSafe(cfg, staged, inventory, b.tenant) {
          return false;
        }
        inventory := WithoutTenant(inventory, b.tenant);
        inventory := inventory + GroupBy(staged);
        products := RefreshProducts(products, inventory, b.tenant);
        staging := WithoutRun(staging, b.run);
      }
      return true;
    }

    /** One ingest of an inventory batch is all or nothing, and does what `Ingest` says. */
    method ProcessIngest(b: Batch, commits: bool) returns (outcome: Outcome)
      modifies this
      ensures (State(), outcome) == Ingest(old(State()), cfg, b, commits)
      ensures outcome != Committed ==> State() == old(State())
    {
      if !MetadataSafe(cfg, b.metadata) {
        return Rejected;
      }
      var savedStaging, savedInventory, savedProducts := staging, inventory, products;
      var safe := true;
      if b.rows != [] {
        safe := UpsertInventory(b);
      }
      if safe && commits {
        return Committed;
      }
      staging, inventory, products := savedStaging, savedInventory, savedProducts;
      return if safe then Failed else Rejected;
    }
  }
}
