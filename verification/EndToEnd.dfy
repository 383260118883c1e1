/** From the source list to the inventory table: the client pages through its list, the queue takes the
    batches in between the work of all other tenants and modules, and the ingest service stages and
    swaps them. */
module EndToEnd {
  import opened Common
  import opened Sequences
  import opened QueueHistory
  import opened TenantIsolation
  import opened Pipeline
  import opened Paging
  import opened PagingProperties
  import opened RunBatches
  import opened RunAcceptance
  import opened LostSnapshots
  import opened Reach
  import opened StagedGroups
  import Inv = Inventory
  import Props = InventoryProperties
  import Snap = InventorySnapshot

  // ---------------------------------------------------------------------------------------------
  // The snapshot
  // ---------------------------------------------------------------------------------------------

  /** Swapping in a non-zero snapshot is always allowed; an all-zero one only under policy `allow`. */
  ghost predicate Replaceable(cfg: Inv.Config, list: seq<Inv.StockRow>, info: RunInfo) {
    var staged := Inv.Stamp(list, info.run, info.tenant);
    || cfg.policy == Inv.Allow
    || Inv.SumStaged(staged, Inv.Everything, Inv.Total) != 0
    || Inv.SumStaged(staged, Inv.Everything, Inv.Available) != 0
  }

  /** What happens to a walk from some row: in any interleaving with the work of every tenant and module the
      backend takes in what it delivered, posted once or several times, and later drains the tenant. */
  ghost predicate Arrives(env: Env<Inv.StockRow>, from: nat, size: nat, info: RunInfo,
                          s: Sys, cfg: Config, steps: seq<Action>, owner: Inv.RunId -> Tenant, start: Inv.Db)
    requires size > 0 && env.minSize > 0
  {
    && Inv.MetadataSafe(cfg.ingest, info.metadata)
    && Ready(s, cfg, owner, start, info.tenant) && StatusKnown(s.w.q) && UnknownRun(s, info)
    && Orderly(steps, owner, info.tenant)
    && Posts(TakenIn(s, cfg, steps, info.tenant), info, Walk(env, 0, from, size).sends, 0)
    && Drained(AdvanceAll(s, cfg, steps), info.tenant)
  }

  /** The tenant's tables when the run begins to be ingested. */
  ghost function Before(s: Sys, cfg: Config, start: Inv.Db, info: RunInfo): Inv.Db {
    Props.IngestAll(View(start, info.tenant), cfg.ingest, Snap.Commits(Batches(OfTenant(s.w.accepted, info.tenant))))
  }

  /** The batches that the walk gets enqueued. */
  ghost function RunOf(env: Env<Inv.StockRow>, from: nat, size: nat, info: RunInfo): seq<Inv.Batch>
    requires size > 0 && env.minSize > 0
  {
    var sends := Walk(env, 0, from, size).sends;
    Kept(info, sends, 0, |sends|)
  }

  /** Then the tenant's tables are what its enqueued batches make of those before. */
  lemma DrainedRunIsIngested(env: Env<Inv.StockRow>, from: nat, size: nat, info: RunInfo,
                             s: Sys, cfg: Config, steps: seq<Action>, owner: Inv.RunId -> Tenant, start: Inv.Db)
    requires size > 0 && env.minSize > 0 && Arrives(env, from, size, info, s, cfg, steps, owner, start)
    requires Snap.AllCommit(Before(s, cfg, start, info), cfg.ingest, RunOf(env, from, size, info))
    ensures View(AdvanceAll(s, cfg, steps).db, info.tenant)
            == Props.IngestAll(Before(s, cfg, start, info), cfg.ingest, Snap.Commits(RunOf(env, from, size, info)))
  {
    var sends, earlier := Walk(env, 0, from, size).sends, Batches(OfTenant(s.w.accepted, info.tenant));
    RunStarts(s, cfg, owner, start, info, sends);
    RunIsAcceptedOnce(s, cfg, steps, owner, start, info, earlier, sends, 0);
    DrainedTenantIsReplayed(s, cfg, steps, owner, start, info.tenant);
    Snap.IngestBoth(View(start, info.tenant), cfg.ingest, earlier, RunOf(env, from, size, info));
  }

  lemma SnapshotView(db: Inv.Db, before: Inv.Db, info: RunInfo, list: seq<Inv.StockRow>)
    requires View(db, info.tenant) == Snap.Replaced(before, info.tenant, info.run, list)
    ensures InventoryOf(db.inventory, info.tenant) == Inv.GroupBy(Inv.Stamp(list, info.run, info.tenant))
    ensures Inv.OfRun(StagingOf(db.staging, info.tenant), info.run) == []
    ensures forall p <- db.products :: p.tenant == info.tenant && Inv.Listed(db.inventory, p) ==>
              db.products[p] == Inv.DisplayStock(db.inventory, info.tenant, p.product)
  {
    var t, mine := info.tenant, (r: Inv.InventoryRow) => r.key.tenant == info.tenant;
    SwappedInventory(before, info, Inv.Stamp(list, info.run, t));
    assert View(db, t).inventory == InventoryOf(db.inventory, t);
    FilterWeaker(db.inventory, mine, mine);
    FilterDisjoint(before.staging, (r: Inv.StagedRow) => r.run != info.run, (r: Inv.StagedRow) => r.run == info.run);
    forall p | p in db.products && p.tenant == t && Inv.Listed(db.inventory, p)
      ensures db.products[p] == Inv.DisplayStock(db.inventory, t, p.product)
    {
      DisplayInView(db.inventory, t, p.product);
      assert ProductsOf(db.products, t)[p] == db.products[p];
    }
  }

  /** The end-to-end snapshot.  When no acknowledgement was lost, or the list fitted even into the last chunk
      size tried, the tenant's inventory is the aggregate of exactly the rows of the list, nothing of the run
      is left staged, and every listed product shows that stock. */
  lemma RunBecomesInventory(env: Env<Inv.StockRow>, list: seq<Inv.StockRow>, size: nat, info: RunInfo,
                            s: Sys, cfg: Config, steps: seq<Action>, owner: Inv.RunId -> Tenant, start: Inv.Db)
    requires WholeWalk(env, list, size) && Arrives(env, 0, size, info, s, cfg, steps, owner, start)
    requires Lossless(Walk(env, 0, 0, size).sends, list) && Replaceable(cfg.ingest, list, info)
    ensures var db, t := AdvanceAll(s, cfg, steps).db, info.tenant;
            && InventoryOf(db.inventory, t) == Inv.GroupBy(Inv.Stamp(list, info.run, t))
            && Inv.OfRun(StagingOf(db.staging, t), info.run) == []
            && (forall p <- db.products :: p.tenant == t && Inv.Listed(db.inventory, p) ==>
                  db.products[p] == Inv.DisplayStock(db.inventory, t, p.product))
  {
    var sends, before := Walk(env, 0, 0, size).sends, Before(s, cfg, start, info);
    WholeWalkIsWhole(env, list, size);
    LosslessWalkIsRun(info, sends, list, cfg.ingest);
    Snap.RunReplacesInventory(before, cfg.ingest, Kept(info, sends, 0, |sends|), info.tenant, info.run);
    DrainedRunIsIngested(env, 0, size, info, s, cfg, steps, owner, start);
    SnapshotView(AdvanceAll(s, cfg, steps).db, before, info, list);
  }

  lemma ViewedInventory(db: Inv.Db, t: Tenant)
    ensures InventoryOf(View(db, t).inventory, t) == InventoryOf(db.inventory, t)
  {
    var mine := (r: Inv.InventoryRow) => r.key.tenant == t;
    FilterWeaker(db.inventory, mine, mine);
  }

  /** Exactly when.  For rows with different keys, of which the guard refuses none of the run's batches, the
      drained inventory is the aggregate of the list if and only if no loss counts: no enqueued page but the
      last is flagged, and no row with stock is in two of them. */
  lemma InventoryIsListIff(env: Env<Inv.StockRow>, list: seq<Inv.StockRow>, size: nat, info: RunInfo,
                           s: Sys, cfg: Config, steps: seq<Action>, owner: Inv.RunId -> Tenant, start: Inv.Db)
    requires WholeWalk(env, list, size) && Arrives(env, 0, size, info, s, cfg, steps, owner, start)
    requires DistinctStaged(Inv.Stamp(list, info.run, info.tenant))
    requires || Admissible(cfg.ingest, Inv.Stamp(list, info.run, info.tenant))
             || Snap.AllCommit(Before(s, cfg, start, info), cfg.ingest, RunOf(env, 0, size, info))
    ensures var inventory := InventoryOf(AdvanceAll(s, cfg, steps).db.inventory, info.tenant);
            inventory == Inv.GroupBy(Inv.Stamp(list, info.run, info.tenant)) <==>
            Harmless(Walk(env, 0, 0, size).sends, list)
  {
    var sends, before := Walk(env, 0, 0, size).sends, Before(s, cfg, start, info);
    WholeWalkIsWhole(env, list, size);
    if Admissible(cfg.ingest, Inv.Stamp(list, info.run, info.tenant)) {
      AdmissibleRunCommits(before, cfg.ingest, info, sends, list);
    }
    CommittedRunIff(before, cfg.ingest, info, sends, list);
    DrainedRunIsIngested(env, 0, size, info, s, cfg, steps, owner, start);
    ViewedInventory(AdvanceAll(s, cfg, steps).db, info.tenant);
  }

  /** In particular, when every row has stock: if and only if no acknowledgement was lost, or the list fitted even
      into the last chunk size tried. */
  lemma StockedInventoryIsListIff(env: Env<Inv.StockRow>, list: seq<Inv.StockRow>, size: nat, info: RunInfo,
                                  s: Sys, cfg: Config, steps: seq<Action>, owner: Inv.RunId -> Tenant, start: Inv.Db)
    requires WholeWalk(env, list, size) && Arrives(env, 0, size, info, s, cfg, steps, owner, start)
    requires DistinctStaged(Inv.Stamp(list, info.run, info.tenant))
    requires Admissible(cfg.ingest, Inv.Stamp(list, info.run, info.tenant))
    requires forall r <- list :: !Stockless(r.stock)
    ensures var inventory := InventoryOf(AdvanceAll(s, cfg, steps).db.inventory, info.tenant);
            inventory == Inv.GroupBy(Inv.Stamp(list, info.run, info.tenant)) <==>
            Lossless(Walk(env, 0, 0, size).sends, list)
  {
    var sends := Walk(env, 0, 0, size).sends;
    WholeWalkIsWhole(env, list, size);
    if Lossless(sends, list) {
      if cfg.ingest.policy == Inv.Verify {
        PositiveSum(Inv.Stamp(list, info.run, info.tenant));
      }
      RunBecomesInventory(env, list, size, info, s, cfg, steps, owner, start);
    } else {
      StockedRowsCount(sends, list);
      InventoryIsListIff(env, list, size, info, s, cfg, steps, owner, start);
    }
  }

  // ---------------------------------------------------------------------------------------------
  // A resumed run
  // ---------------------------------------------------------------------------------------------

  /** Batches of other runs leave nothing of this run staged. */
  lemma {:induction false} OthersStageElsewhere(db: Inv.Db, cfg: Inv.Config, bs: seq<Inv.Batch>, run: Inv.RunId)
    requires Inv.OfRun(db.staging, run) == [] && forall b <- bs :: b.run != run
    ensures Inv.OfRun(Props.IngestAll(db, cfg, Snap.Commits(bs)).staging, run) == []
    decreases |bs|
  {
    if bs != [] {
      var b := bs[0];
      assert b in bs;
      var base := if b.index == 0 then Inv.WithoutRun(db.staging, b.run) else db.staging;
      var own := Inv.Stamp(b.rows, b.run, b.tenant);
      WithoutKeepsNone(db.staging, b.run, run);
      FilterConcat(base, own, (r: Inv.StagedRow) => r.run == run);
      FilterNone(own, (r: Inv.StagedRow) => r.run == run);
      WithoutKeepsNone(base + own, b.run, run);
      Snap.CommitsCons(bs);
      OthersStageElsewhere(Inv.Ingest(db, cfg, b, true).0, cfg, bs[1..], run);
    } else {
      assert Snap.Commits(bs) == [];
    }
  }

  lemma WithoutKeepsNone(staging: seq<Inv.StagedRow>, other: Inv.RunId, run: Inv.RunId)
    requires Inv.OfRun(staging, run) == []
    ensures Inv.OfRun(Inv.WithoutRun(staging, other), run) == []
  {
    FilterSwap(staging, (r: Inv.StagedRow) => r.run != other, (r: Inv.StagedRow) => r.run == run);
  }

  lemma NothingStagedBefore(s: Sys, cfg: Config, start: Inv.Db, info: RunInfo)
    requires Inv.OfRun(start.staging, info.run) == [] && UnknownRun(s, info)
    ensures Inv.OfRun(Before(s, cfg, start, info).staging, info.run) == []
  {
    FilterSwap(start.staging, (r: Inv.StagedRow) => r.key.tenant == info.tenant,
               (r: Inv.StagedRow) => r.run == info.run);
    OthersStageElsewhere(View(start, info.tenant), cfg.ingest, Batches(OfTenant(s.w.accepted, info.tenant)), info.run);
  }

  /** A run that is resumed has a new run id and sends only the rest of its list, so that rest becomes the whole
      inventory: of rows with different keys it is the aggregate of the list if and only if the run started at
      row 0. */
  lemma ResumedRunLeavesTail(env: Env<Inv.StockRow>, list: seq<Inv.StockRow>, from: nat, size: nat, info: RunInfo,
                             s: Sys, cfg: Config, steps: seq<Action>, owner: Inv.RunId -> Tenant, start: Inv.Db)
    requires FinishedWalk(env, list, from, size) && NoLostAck(Walk(env, 0, from, size).sends)
    requires Arrives(env, from, size, info, s, cfg, steps, owner, start)
    requires Inv.OfRun(start.staging, info.run) == [] && Replaceable(cfg.ingest, list[from..], info)
    ensures var inventory := InventoryOf(AdvanceAll(s, cfg, steps).db.inventory, info.tenant);
            var stamped := Inv.Stamp(list, info.run, info.tenant);
            && inventory == Inv.GroupBy(Inv.Stamp(list[from..], info.run, info.tenant))
            && (DistinctStaged(stamped) ==> (inventory == Inv.GroupBy(stamped) <==> from == 0))
  {
    var stamped := Inv.Stamp(list, info.run, info.tenant);
    if from == 0 {
      assert list[0..] == list;
      RunBecomesInventory(env, list, size, info, s, cfg, steps, owner, start);
    } else {
      TailIsSwappedIn(env, list, from, size, info, s, cfg, steps, owner, start);
      if DistinctStaged(stamped) {
        TailIsNotTheList(list, from, info.run, info.tenant);
      }
    }
  }

  lemma TailIsNotTheList(list: seq<Inv.StockRow>, from: nat, run: Inv.RunId, t: Tenant)
    requires 0 < from < |list| && DistinctStaged(Inv.Stamp(list, run, t))
    ensures Inv.GroupBy(Inv.Stamp(list[from..], run, t)) != Inv.GroupBy(Inv.Stamp(list, run, t))
  {
    assert Inv.Stamp(list[from..], run, t) == Inv.Stamp(list, run, t)[from..];
    MissingRowShows(Inv.Stamp(list, run, t), from);
  }

  lemma TailIsSwappedIn(env: Env<Inv.StockRow>, list: seq<Inv.StockRow>, from: nat, size: nat, info: RunInfo,
                        s: Sys, cfg: Config, steps: seq<Action>, owner: Inv.RunId -> Tenant, start: Inv.Db)
    requires FinishedWalk(env, list, from, size) && from > 0 && NoLostAck(Walk(env, 0, from, size).sends)
    requires Arrives(env, from, size, info, s, cfg, steps, owner, start)
    requires Inv.OfRun(start.staging, info.run) == [] && Replaceable(cfg.ingest, list[from..], info)
    ensures InventoryOf(AdvanceAll(s, cfg, steps).db.inventory, info.tenant)
            == Inv.GroupBy(Inv.Stamp(list[from..], info.run, info.tenant))
  {
    var before, bs := Before(s, cfg, start, info), RunOf(env, from, size, info);
    var staged := Inv.Stamp(list[from..], info.run, info.tenant);
    ResumedWalkIsTail(env, list, from, size, info);
    NothingStagedBefore(s, cfg, start, info);
    assert [] + staged == staged;
    Snap.RestCommits(before, cfg.ingest, bs, info.tenant, info.run, []);
    SegmentIsSwappedIn(before, cfg.ingest, info, bs);
    DrainedRunIsIngested(env, from, size, info, s, cfg, steps, owner, start);
    ViewedInventory(AdvanceAll(s, cfg, steps).db, info.tenant);
  }

  // ---------------------------------------------------------------------------------------------
  // Two runs with a loss
  // ---------------------------------------------------------------------------------------------

  /** The first answer is lost on the way back and the client retries with smaller chunks. */
  function LossyEnv(list: seq<Inv.StockRow>): Env<Inv.StockRow> {
    Env((k: nat) => Weather(false, true, if k == 0 then Nacked(true, true) else Acked, false),
        (offset: nat, n: nat) => Slice(list, offset, n), |list|, 50)
  }

  lemma LossyWalk(list: seq<Inv.StockRow>)
    requires |list| == 100
    ensures var w, page := Walk(LossyEnv(list), 0, 0, 100), LossyEnv(list).page;
            && w.exit == Finished
            && w.sends == [Sent(MakeBatch(page, 100, 0, 100), true, false),
                           Sent(MakeBatch(page, 100, 0, 50), true, true),
                           Sent(MakeBatch(page, 100, 50, 50), true, true)]
            && AllAligned(w.sends)
            && IsEnqueued(w.sends, 0) && !IsEnqueued(w.sends, 1) && IsEnqueued(w.sends, 2)
  {
    var env := LossyEnv(list);
    var b0, b1, b2 := MakeBatch(env.page, 100, 0, 100), MakeBatch(env.page, 100, 0, 50),
        MakeBatch(env.page, 100, 50, 50);
    var w3 := Walk(env, 3, 100, 50);
    var w2 := Walk(env, 2, 50, 50);
    var w1 := Walk(env, 1, 0, 50);
    assert w3 == Walked([], 100, Finished);
    assert w2 == Walked([Sent(b2, true, true)], 100, Finished);
    assert w1 == Walked([Sent(b1, true, true), Sent(b2, true, true)], 100, Finished);
  }

  /** A snapshot of one page whose acknowledgement is lost: the page is ingested and swapped in, its
      first half is answered as a duplicate, and the second half alone replaces the inventory. */
  lemma LostAckShrinksSnapshot(list: seq<Inv.StockRow>, info: RunInfo, cfg: Inv.Config, db: Inv.Db)
    requires |list| == 100 && Inv.MetadataSafe(cfg, info.metadata)
    requires Replaceable(cfg, list, info) && Replaceable(cfg, list[50..], info)
    ensures var sends := Walk(LossyEnv(list), 0, 0, 100).sends;
            && WholeWalk(LossyEnv(list), list, 100)
            && InventoryOf(Props.IngestAll(db, cfg, Snap.Commits(Kept(info, sends, 0, |sends|))).inventory, info.tenant)
               == Inv.GroupBy(Inv.Stamp(list[50..], info.run, info.tenant))
  {
    LossyWalk(list);
    var sends := Walk(LossyEnv(list), 0, 0, 100).sends;
    var b, c := info.Address(sends[0].batch), info.Address(sends[2].batch);
    var db1 := Snap.Replaced(db, info.tenant, info.run, list);
    assert b.rows == list && c.rows == list[50..];
    OnePageSwap(db, cfg, b);
    assert Inv.OfRun(db1.staging, info.run) == [] by {
      FilterDisjoint(db.staging, (r: Inv.StagedRow) => r.run != info.run, (r: Inv.StagedRow) => r.run == info.run);
    }
    OnePageSwap(db1, cfg, c);
    KeptOfThree(info, sends);
    assert [b, c] == [b] + [c];
    Snap.IngestBoth(db, cfg, [b], [c]);
    SwappedInventory(db1, info, Inv.Stamp(list[50..], info.run, info.tenant));
  }

  lemma KeptOfThree(info: RunInfo, sends: Attempts)
    requires |sends| == 3 && IsEnqueued(sends, 0) && !IsEnqueued(sends, 1) && IsEnqueued(sends, 2)
    ensures Kept(info, sends, 0, 3) == [info.Address(sends[0].batch), info.Address(sends[2].batch)]
  {
    assert Kept(info, sends, 2, 3) == [info.Address(sends[2].batch)] + Kept(info, sends, 3, 3);
    assert Kept(info, sends, 1, 3) == [info.Address(sends[2].batch)];
  }

  /** A flagged batch that finds nothing of its run staged replaces the inventory by its own rows. */
  lemma OnePageSwap(db: Inv.Db, cfg: Inv.Config, b: Inv.Batch)
    requires b.rows != [] && b.IsLast() && Inv.MetadataSafe(cfg, b.metadata)
    requires Replaceable(cfg, b.rows, RunInfo(b.tenant, b.run, b.metadata))
    requires b.index == 0 || Inv.OfRun(db.staging, b.run) == []
    ensures Props.IngestAll(db, cfg, Snap.Commits([b])) == Snap.Replaced(db, b.tenant, b.run, b.rows)
  {
    Snap.StageOfRun(db.staging, b);
    assert [] + Inv.Stamp(b.rows, b.run, b.tenant) == Inv.Stamp(b.rows, b.run, b.tenant);
    Snap.CommitsCons([b]);
    assert Snap.Commits([b])[1..] == [];
  }
}
