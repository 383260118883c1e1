/** The snapshot that all batches of one run leave behind, and the independence of tenants. */
module InventorySnapshot {
  import opened Common
  import opened Sequences
  import opened Inventory
  import opened InventoryProperties

  // ---------------------------------------------------------------------------------------------
  // One run
  // ---------------------------------------------------------------------------------------------

  function AllRows(bs: seq<Batch>): seq<StockRow> {
    if bs == [] then [] else bs[0].rows + AllRows(bs[1..])
  }

  /** The batches of one run in order: only the first has number 0, and only the last is flagged. */
  ghost predicate IsRun(bs: seq<Batch>, cfg: Config, t: Tenant, run: RunId) {
    && |bs| > 0
    && (forall i :: 0 <= i < |bs| ==>
          && bs[i].tenant == t && bs[i].run == run && bs[i].rows != []
          && MetadataSafe(cfg, bs[i].metadata)
          && (bs[i].index == 0 <==> i == 0)
          && (bs[i].IsLast() <==> i == |bs| - 1))
  }

  function Commits(bs: seq<Batch>): seq<Arrival> {
    seq(|bs|, i requires 0 <= i < |bs| => Arrival(bs[i], true))
  }

  lemma CommitsConcat(a: seq<Batch>, b: seq<Batch>)
    ensures Commits(a + b) == Commits(a) + Commits(b)
  {
  }

  lemma IngestBoth(db: Db, cfg: Config, a: seq<Batch>, b: seq<Batch>)
    ensures IngestAll(db, cfg, Commits(a + b)) == IngestAll(IngestAll(db, cfg, Commits(a)), cfg, Commits(b))
  {
    CommitsConcat(a, b);
    IngestAllConcat(db, cfg, Commits(a), Commits(b));
  }

  lemma StageOfRun(staging: seq<StagedRow>, b: Batch)
    ensures OfRun(Stage(staging, b), b.run)
            == (if b.index == 0 then [] else OfRun(staging, b.run)) + Stamp(b.rows, b.run, b.tenant)
    ensures WithoutRun(Stage(staging, b), b.run) == WithoutRun(staging, b.run)
  {
    var base := if b.index == 0 then WithoutRun(staging, b.run) else staging;
    var added := Stamp(b.rows, b.run, b.tenant);
    var mine, others := (r: StagedRow) => r.run == b.run, (r: StagedRow) => r.run != b.run;
    FilterConcat(base, added, mine);
    FilterConcat(base, added, others);
    FilterAll(added, mine);
    FilterNone(added, others);
    FilterDisjoint(staging, others, mine);
    FilterWeaker(staging, others, others);
  }

  lemma StampConcat(a: seq<StockRow>, b: seq<StockRow>, run: RunId, t: Tenant)
    ensures Stamp(a + b, run, t) == Stamp(a, run, t) + Stamp(b, run, t)
  {
  }

  /** The tables after a swap of exactly these staged rows. */
  function Swapped(db: Db, t: Tenant, run: RunId, staged: seq<StagedRow>): Db {
    var inventory := WithoutTenant(db.inventory, t) + GroupBy(staged);
    Db(WithoutRun(db.staging, run), inventory, RefreshProducts(db.products, inventory, t))
  }

  /** The tables after a swap of exactly these source rows. */
  function Replaced(db: Db, t: Tenant, run: RunId, rows: seq<StockRow>): Db {
    Swapped(db, t, run, Stamp(rows, run, t))
  }

  /** Once the batches before it have been ingested, this one commits. */
  ghost predicate CommitsNext(db: Db, cfg: Config, bs: seq<Batch>, i: nat)
    requires i < |bs|
  {
    Ingest(IngestAll(db, cfg, Commits(bs[..i])), cfg, bs[i], true).1 == Committed
  }

  /** One after the other, every ingest commits. */
  ghost predicate AllCommit(db: Db, cfg: Config, bs: seq<Batch>) {
    forall i: nat :: i < |bs| ==> CommitsNext(db, cfg, bs, i)
  }

  lemma CommitsCons(bs: seq<Batch>)
    requires bs != []
    ensures Commits(bs)[0] == Arrival(bs[0], true) && Commits(bs)[1..] == Commits(bs[1..])
  {
  }

  lemma FirstCommits(db: Db, cfg: Config, bs: seq<Batch>)
    requires bs != []
    ensures CommitsNext(db, cfg, bs, 0) <==> Ingest(db, cfg, bs[0], true).1 == Committed
  {
    assert Commits(bs[..0]) == [];
  }

  lemma LaterCommits(db: Db, cfg: Config, bs: seq<Batch>, i: nat)
    requires i + 1 < |bs|
    ensures CommitsNext(db, cfg, bs, i + 1) <==> CommitsNext(Ingest(db, cfg, bs[0], true).0, cfg, bs[1..], i)
  {
    CommitsCons(bs[..i + 1]);
    assert bs[..i + 1][1..] == bs[1..][..i];
  }

  lemma AllCommitCons(db: Db, cfg: Config, bs: seq<Batch>)
    requires bs != []
    ensures var (next, outcome) := Ingest(db, cfg, bs[0], true);
            AllCommit(db, cfg, bs) <==> outcome == Committed && AllCommit(next, cfg, bs[1..])
  {
    var next := Ingest(db, cfg, bs[0], true).0;
    FirstCommits(db, cfg, bs);
    if AllCommit(db, cfg, bs) {
      forall i: nat | i < |bs[1..]|
        ensures CommitsNext(next, cfg, bs[1..], i)
      {
        LaterCommits(db, cfg, bs, i);
        assert CommitsNext(db, cfg, bs, i + 1);
      }
    }
    if CommitsNext(db, cfg, bs, 0) && AllCommit(next, cfg, bs[1..]) {
      forall i: nat | i < |bs|
        ensures CommitsNext(db, cfg, bs, i)
      {
        if i > 0 {
          LaterCommits(db, cfg, bs, i - 1);
          assert CommitsNext(next, cfg, bs[1..], i - 1);
        }
      }
    }
  }

  /** The remaining batches of a run after its first one or some of them: only the last is flagged, and only the
      first may have number 0. */
  ghost predicate Remainder(bs: seq<Batch>, cfg: Config, t: Tenant, run: RunId) {
    && |bs| > 0
    && forall i :: 0 <= i < |bs| ==>
         && bs[i].tenant == t && bs[i].run == run && bs[i].rows != []
         && MetadataSafe(cfg, bs[i].metadata)
         && (bs[i].IsLast() <==> i == |bs| - 1)
         && (bs[i].index == 0 ==> i == 0)
  }

  /** What is staged when they begin. */
  ghost predicate StagedSoFar(db: Db, bs: seq<Batch>, run: RunId, done: seq<StagedRow>)
    requires bs != []
  {
    if bs[0].index == 0 then done == [] else OfRun(db.staging, run) == done
  }

  lemma {:induction false} StagedNext(db: Db, cfg: Config, bs: seq<Batch>, t: Tenant, run: RunId, done: seq<StagedRow>)
    requires Remainder(bs, cfg, t, run) && StagedSoFar(db, bs, run, done)
    ensures var staging, own := Stage(db.staging, bs[0]), Stamp(bs[0].rows, run, t);
            && OfRun(staging, run) == done + own && WithoutRun(staging, run) == WithoutRun(db.staging, run)
            && (|bs| == 1 ==> done + own == done + Stamp(AllRows(bs), run, t))
            && (|bs| > 1 ==>
                  && Remainder(bs[1..], cfg, t, run) && StagedSoFar(db.(staging := staging), bs[1..], run, done + own)
                  && (done + own) + Stamp(AllRows(bs[1..]), run, t) == done + Stamp(AllRows(bs), run, t))
  {
    var b, rest := bs[0], bs[1..];
    StageOfRun(db.staging, b);
    if |bs| == 1 {
      assert rest == [] && AllRows(bs) == b.rows + [] == b.rows;
    } else {
      StampConcat(b.rows, AllRows(rest), run, t);
    }
  }

  /** If the rows staged before, `done`, may be swapped in together with those of the remaining batches, these
      all commit. */
  lemma {:induction false} RestCommits(db: Db, cfg: Config, bs: seq<Batch>, t: Tenant, run: RunId, done: seq<StagedRow>)
    requires Remainder(bs, cfg, t, run) && StagedSoFar(db, bs, run, done)
    requires SwapSafe(cfg, done + Stamp(AllRows(bs), run, t), db.inventory, t)
    ensures AllCommit(db, cfg, bs)
    decreases |bs|
  {
    StagedNext(db, cfg, bs, t, run, done);
    AllCommitCons(db, cfg, bs);
    if |bs| > 1 {
      var staging := Stage(db.staging, bs[0]);
      RestCommits(db.(staging := staging), cfg, bs[1..], t, run, done + Stamp(bs[0].rows, run, t));
    }
  }

  /** And when they commit they swap in exactly these rows. */
  lemma {:induction false} RestOfRun(db: Db, cfg: Config, bs: seq<Batch>, t: Tenant, run: RunId, done: seq<StagedRow>)
    requires Remainder(bs, cfg, t, run) && StagedSoFar(db, bs, run, done) && AllCommit(db, cfg, bs)
    ensures IngestAll(db, cfg, Commits(bs)) == Swapped(db, t, run, done + Stamp(AllRows(bs), run, t))
    decreases |bs|
  {
    StagedNext(db, cfg, bs, t, run, done);
    AllCommitCons(db, cfg, bs);
    CommitsCons(bs);
    if |bs| > 1 {
      var staging := Stage(db.staging, bs[0]);
      RestOfRun(db.(staging := staging), cfg, bs[1..], t, run, done + Stamp(bs[0].rows, run, t));
    } else {
      assert Commits(bs[1..]) == [];
    }
  }

  /** A whole run, committed in order, replaces the tenant's inventory by the aggregate of exactly its
      rows, whatever an earlier attempt of the same run had staged. */
  lemma RunReplacesInventory(db: Db, cfg: Config, bs: seq<Batch>, t: Tenant, run: RunId)
    requires IsRun(bs, cfg, t, run) && SwapSafe(cfg, Stamp(AllRows(bs), run, t), db.inventory, t)
    ensures IngestAll(db, cfg, Commits(bs)) == Replaced(db, t, run, AllRows(bs))
    ensures AllCommit(db, cfg, bs)
  {
    assert [] + Stamp(AllRows(bs), run, t) == Stamp(AllRows(bs), run, t);
    RestCommits(db, cfg, bs, t, run, []);
    RestOfRun(db, cfg, bs, t, run, []);
  }
}
