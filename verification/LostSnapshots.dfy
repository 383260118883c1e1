/** What lost acknowledgements do to the inventory table: a swap before the last one takes rows away from it, and
    a row of two enqueued pages is added up. */
module LostSnapshots {
  import opened Common
  import opened Sequences
  import opened Paging
  import opened PagingProperties
  import opened Reach
  import opened ExactDelivery
  import opened RunBatches
  import opened StagedGroups
  import opened TenantIsolation
  import Inv = Inventory
  import Props = InventoryProperties
  import Snap = InventorySnapshot

  // ---------------------------------------------------------------------------------------------
  // Which losses count
  // ---------------------------------------------------------------------------------------------

  /** Of two enqueued pages, the earlier is not flagged and what they have in common has no stock. */
  ghost predicate HarmlessPair(a: Paging.Batch<Inv.StockRow>, b: Paging.Batch<Inv.StockRow>, list: seq<Inv.StockRow>) {
    && !Flagged(a)
    && forall x: nat :: x < |list| && Covers(a, x) && Covers(b, x) ==> Stockless(list[x].stock)
  }

  /** Whatever was lost: no enqueued page but the last is flagged, and no row with stock is in two of them. */
  ghost predicate Harmless(sends: Attempts, list: seq<Inv.StockRow>) {
    forall i: nat, j: nat :: i < j && IsEnqueued(sends, i) && IsEnqueued(sends, j) ==>
      HarmlessPair(sends[i].batch, sends[j].batch, list)
  }

  /** If every row has stock, every loss counts, except on a list within the last chunk size. */
  lemma StockedRowsCount(sends: Attempts, list: seq<Inv.StockRow>)
    requires Whole(sends, list) && !Lossless(sends, list) && forall r <- list :: !Stockless(r.stock)
    ensures !Harmless(sends, list)
  {
    var j, m, c := LossStaysBehind(sends, list);
    var k := CoveringAttempt(sends, list, m, c);
    assert list[c] in list && Covers(sends[j].batch, c) && Covers(sends[k].batch, c);
    assert !HarmlessPair(sends[j].batch, sends[k].batch, list);
  }

  lemma CoveringAttempt(sends: Attempts, list: seq<Inv.StockRow>, m: nat, c: nat) returns (k: nat)
    requires Whole(sends, list) && m <= |sends| && 0 < c < |list| && Tiles(sends[m..], c, |list|)
    ensures m <= k && IsEnqueued(sends, k) && Covers(sends[k].batch, c)
  {
    var x := AckedPageAt(sends[m..], c, |list|, c);
    OffsetsAtLeast(sends[m..], c, |list|);
    k := m + x;
    assert sends[m..][x] == sends[k];
    PastRowZero(sends, list, k);
  }

  // ---------------------------------------------------------------------------------------------
  // A harmless run groups like its list
  // ---------------------------------------------------------------------------------------------

  ghost predicate CoveredBefore(sends: Attempts, k: nat, x: nat) {
    exists i: nat :: i < k && IsEnqueued(sends, i) && Covers(sends[i].batch, x)
  }

  /** The pages enqueued before attempt `k` hold the rows before `p` and no others. */
  ghost predicate ReachesTo(sends: Attempts, k: nat, p: nat) {
    && (forall x: nat :: x < p ==> CoveredBefore(sends, k, x))
    && (forall i: nat :: i < k && IsEnqueued(sends, i) ==> EndOf(sends[i].batch) <= p)
  }

  /** A page answered as a duplicate lies within one that was enqueued. */
  lemma DuplicateIsReached(sends: Attempts, list: seq<Inv.StockRow>, k: nat)
    requires Regular(sends, list) && k < |sends| && sends[k].delivered && !IsEnqueued(sends, k)
    ensures exists f: nat :: f < k && IsEnqueued(sends, f) && EndOf(sends[k].batch) <= EndOf(sends[f].batch)
  {
    var f := FirstDelivered(sends, k);
    assert f < k && sends[f].batch.offset == sends[k].batch.offset && sends[k].batch.size < sends[f].batch.size;
  }

  /** One attempt at position `at`, with enqueued rows up to `p`: where the next one is made, and how far they
      reach then. */
  lemma AttemptReaches(sends: Attempts, list: seq<Inv.StockRow>, k: nat, at: nat, p: nat) returns (next: nat, q: nat)
    requires Regular(sends, list) && k < |sends| && at <= p <= |list| && Tiles(sends[k..], at, |list|)
    requires ReachesTo(sends, k, p)
    ensures Tiles(sends[k + 1..], next, |list|) && next <= q <= |list| && ReachesTo(sends, k + 1, q)
    ensures at + |sends[k].batch.rows| <= |list| && Covers(sends[k].batch, at) && sends[k].batch.offset == at
    ensures sends[k].batch.rows == list[at..at + |sends[k].batch.rows|]
    ensures q == if IsEnqueued(sends, k) && p < at + |sends[k].batch.rows| then at + |sends[k].batch.rows| else p
  {
    assert sends[k..][0] == sends[k] && sends[k..][1..] == sends[k + 1..];
    var to := at + |sends[k].batch.rows|;
    next := NextFrom(sends[k], at);
    q := if IsEnqueued(sends, k) && p < to then to else p;
    if sends[k].delivered && !IsEnqueued(sends, k) {
      DuplicateIsReached(sends, list, k);
    }
    var later := k + 1;
    forall x: nat | x < q
      ensures CoveredBefore(sends, later, x)
    {
      assert x < p ==> CoveredBefore(sends, k, x);
    }
  }

  lemma StampSlice(info: RunInfo, list: seq<Inv.StockRow>, from: nat, to: nat, rows: seq<Inv.StockRow>)
    requires from <= to <= |list| && rows == list[from..to]
    ensures Inv.Stamp(rows, info.run, info.tenant) == Inv.Stamp(list, info.run, info.tenant)[from..to]
  {
  }

  lemma StampRest(info: RunInfo, list: seq<Inv.StockRow>, from: nat)
    requires from <= |list|
    ensures Inv.Stamp(list[from..], info.run, info.tenant) == Inv.Stamp(list, info.run, info.tenant)[from..]
  {
  }

  lemma SharedRowIsStockless(sends: Attempts, list: seq<Inv.StockRow>, k: nat, p: nat, x: nat)
    requires Harmless(sends, list) && IsEnqueued(sends, k) && ReachesTo(sends, k, p)
    requires x < p && x < |list| && Covers(sends[k].batch, x)
    ensures Stockless(list[x].stock)
  {
    assert CoveredBefore(sends, k, x);
    var i: nat :| i < k && IsEnqueued(sends, i) && Covers(sends[i].batch, x);
    assert HarmlessPair(sends[i].batch, sends[k].batch, list);
  }

  lemma SharedRowsAreStockless(info: RunInfo, sends: Attempts, list: seq<Inv.StockRow>, k: nat, at: nat, to: nat,
                               p: nat)
    requires Harmless(sends, list) && IsEnqueued(sends, k) && ReachesTo(sends, k, p) && at <= p <= |list|
    requires sends[k].batch.offset == at && to == at + |sends[k].batch.rows|
    ensures forall x: nat :: at <= x < p && x < to ==> Stockless(Inv.Stamp(list, info.run, info.tenant)[x].stock)
  {
    forall x: nat | at <= x < p && x < to
      ensures Stockless(Inv.Stamp(list, info.run, info.tenant)[x].stock)
    {
      SharedRowIsStockless(sends, list, k, p, x);
    }
  }

  /** The page of attempt `k`, staged after rows that group like the first `p` of the list. */
  lemma HarmlessPage(info: RunInfo, sends: Attempts, list: seq<Inv.StockRow>, k: nat, at: nat, p: nat,
                     done: seq<Inv.StagedRow>)
    requires Harmless(sends, list) && IsEnqueued(sends, k) && ReachesTo(sends, k, p) && at <= p <= |list|
    requires var b := sends[k].batch;
             at + |b.rows| <= |list| && b.offset == at && b.rows == list[at..at + |b.rows|]
    requires var stamped := Inv.Stamp(list, info.run, info.tenant);
             DistinctStaged(stamped) && Inv.GroupBy(done) == Inv.GroupBy(stamped[..p])
    ensures var stamped, to := Inv.Stamp(list, info.run, info.tenant), at + |sends[k].batch.rows|;
            Inv.GroupBy(done + Inv.Stamp(sends[k].batch.rows, info.run, info.tenant))
            == Inv.GroupBy(stamped[..if p < to then to else p])
  {
    var stamped, to := Inv.Stamp(list, info.run, info.tenant), at + |sends[k].batch.rows|;
    StampSlice(info, list, at, to, sends[k].batch.rows);
    SharedRowsAreStockless(info, sends, list, k, at, to, p);
    OverlappingPage(stamped, done, at, to, p);
  }

  /** When no loss counts, what the run stages groups like its list. */
  lemma {:induction false} HarmlessRowsGroup(info: RunInfo, sends: Attempts, list: seq<Inv.StockRow>, k: nat, at: nat,
                                             p: nat, done: seq<Inv.StagedRow>)
    requires Regular(sends, list) && Harmless(sends, list) && DistinctStaged(Inv.Stamp(list, info.run, info.tenant))
    requires k <= |sends| && at <= p <= |list| && Tiles(sends[k..], at, |list|) && ReachesTo(sends, k, p)
    requires Inv.GroupBy(done) == Inv.GroupBy(Inv.Stamp(list, info.run, info.tenant)[..p])
    ensures Inv.GroupBy(done + Inv.Stamp(EnqueuedFrom(sends, k), info.run, info.tenant))
            == Inv.GroupBy(Inv.Stamp(list, info.run, info.tenant))
    decreases |sends| - k
  {
    var stamped := Inv.Stamp(list, info.run, info.tenant);
    if k == |sends| {
      EmptyEnds(stamped);
      EmptyEnds(done);
    } else {
      var next, q := AttemptReaches(sends, list, k, at, p);
      var own, rest := Inv.Stamp(EnqueuedAt(sends, k), info.run, info.tenant), EnqueuedFrom(sends, k + 1);
      if IsEnqueued(sends, k) {
        HarmlessPage(info, sends, list, k, at, p, done);
      } else {
        EmptyEnds(done);
      }
      HarmlessRowsGroup(info, sends, list, k + 1, next, q, done + own);
      Snap.StampConcat(EnqueuedAt(sends, k), rest, info.run, info.tenant);
      ConcatAssoc(done, own, Inv.Stamp(rest, info.run, info.tenant));
    }
  }

  // ---------------------------------------------------------------------------------------------
  // The batches after the last early flag
  // ---------------------------------------------------------------------------------------------

  /** From attempt `k` on no enqueued page but the last is flagged. */
  ghost predicate NoEarlyFlag(sends: Attempts, k: nat) {
    forall i: nat, j: nat :: k <= i < j && IsEnqueued(sends, i) && IsEnqueued(sends, j) ==> !Flagged(sends[i].batch)
  }

  /** The last enqueued page of a finished walk is flagged. */
  lemma LastEnqueuedIsFlagged(sends: Attempts, list: seq<Inv.StockRow>, k: nat)
    requires Whole(sends, list) && IsEnqueued(sends, k) && forall j: nat :: k < j ==> !IsEnqueued(sends, j)
    ensures Flagged(sends[k].batch)
  {
    var n := |sends| - 1;
    if k < n {
      assert sends[n].batch.offset == 0 by {
        if sends[n].batch.offset > 0 {
          PastRowZero(sends, list, n);
        }
      }
      var a, f := Enqueued(sends, list);
      LastIsFirst(sends, list, a);
      assert sends[a + 1..] == [] && k == f;
      FlaggedAtRowZero(sends, list, f);
    }
  }

  /** Batches of the run of which only the last is flagged, and only the first may have number 0. */
  ghost predicate Segment(bs: seq<Inv.Batch>, info: RunInfo) {
    forall x :: 0 <= x < |bs| ==>
      && bs[x].tenant == info.tenant && bs[x].run == info.run && bs[x].metadata == info.metadata && bs[x].rows != []
      && (bs[x].IsLast() <==> x == |bs| - 1)
      && (bs[x].index == 0 ==> x == 0)
  }

  lemma LaterIndexIsLarger(sends: Attempts, list: seq<Inv.StockRow>, k: nat, j: nat)
    requires Regular(sends, list) && k < j && IsEnqueued(sends, k) && IsEnqueued(sends, j)
    ensures sends[k].batch.index < sends[j].batch.index
  {
  }

  lemma LaterIndices(info: RunInfo, sends: Attempts, list: seq<Inv.StockRow>, k: nat)
    requires Regular(sends, list) && k < |sends| && IsEnqueued(sends, k)
    ensures forall b <- Kept(info, sends, k + 1, |sends|) :: b.index != 0
  {
    var rest := Kept(info, sends, k + 1, |sends|);
    forall b | b in rest
      ensures b.index != 0
    {
      var j := KeptMembers(info, sends, k + 1, |sends|, b);
      LaterIndexIsLarger(sends, list, k, j);
    }
  }

  lemma KeptIsEmpty(info: RunInfo, sends: Attempts, k: nat)
    requires k <= |sends|
    ensures Kept(info, sends, k, |sends|) == [] <==> forall j: nat :: k <= j ==> !IsEnqueued(sends, j)
  {
    var bs := Kept(info, sends, k, |sends|);
    if bs != [] {
      var j := KeptMembers(info, sends, k, |sends|, bs[0]);
    } else {
      forall j: nat | k <= j < |sends|
        ensures !IsEnqueued(sends, j)
      {
        KeptConcat(info, sends, k, j, |sends|);
      }
    }
  }

  lemma {:induction false} KeptSegment(info: RunInfo, sends: Attempts, list: seq<Inv.StockRow>, k: nat)
    requires Whole(sends, list) && k <= |sends| && NoEarlyFlag(sends, k)
    ensures Segment(Kept(info, sends, k, |sends|), info)
    decreases |sends| - k
  {
    if k < |sends| {
      var rest := Kept(info, sends, k + 1, |sends|);
      KeptSegment(info, sends, list, k + 1);
      if IsEnqueued(sends, k) {
        KeptIsEmpty(info, sends, k + 1);
        assert Flagged(sends[k].batch) <==> rest == [] by {
          if rest == [] {
            LastEnqueuedIsFlagged(sends, list, k);
          }
        }
        LaterIndices(info, sends, list, k);
        SegmentCons(info.Address(sends[k].batch), rest, info);
      } else {
        assert [] + rest == rest;
      }
    }
  }

  lemma SegmentCons(b: Inv.Batch, rest: seq<Inv.Batch>, info: RunInfo)
    requires Segment(rest, info) && forall x <- rest :: x.index != 0
    requires b.tenant == info.tenant && b.run == info.run && b.metadata == info.metadata && b.rows != []
    requires b.IsLast() <==> rest == []
    ensures Segment([b] + rest, info)
  {
  }

  lemma {:induction false} LastEarlyFlag(sends: Attempts, k: nat) returns (i: nat)
    requires k <= |sends| && !NoEarlyFlag(sends, k)
    ensures k <= i < |sends| && IsEnqueued(sends, i) && Flagged(sends[i].batch) && NoEarlyFlag(sends, i + 1)
    ensures exists j: nat :: i < j && IsEnqueued(sends, j)
    decreases |sends| - k
  {
    if NoEarlyFlag(sends, k + 1) {
      i := k;
    } else {
      i := LastEarlyFlag(sends, k + 1);
    }
  }

  // ---------------------------------------------------------------------------------------------
  // The inventory that a run leaves
  // ---------------------------------------------------------------------------------------------

  ghost predicate MissingFrom(inventory: seq<Inv.InventoryRow>, r: Inv.StagedRow) {
    Inv.Find(inventory, r.key).None?
  }

  /** The inventory holds `k` times the stock of this row, and once would be something else. */
  ghost predicate CountedOften(inventory: seq<Inv.InventoryRow>, r: Inv.StagedRow, k: nat, m: Inv.Measure) {
    var found := Inv.Find(inventory, r.key);
    k >= 2 && Inv.Value(r.stock, m) != 0 && found.Some? && Inv.Value(found.value, m) == k * Inv.Value(r.stock, m)
  }

  lemma SwappedInventory(db: Inv.Db, info: RunInfo, staged: seq<Inv.StagedRow>)
    requires forall r <- staged :: r.key.tenant == info.tenant
    ensures InventoryOf(Snap.Swapped(db, info.tenant, info.run, staged).inventory, info.tenant) == Inv.GroupBy(staged)
  {
    var t, groups := info.tenant, Inv.GroupBy(staged);
    var mine, others := (r: Inv.InventoryRow) => r.key.tenant == t, (r: Inv.InventoryRow) => r.key.tenant != t;
    FilterConcat(Inv.WithoutTenant(db.inventory, t), groups, mine);
    FilterDisjoint(db.inventory, others, mine);
    GroupsBelongTo(staged, t);
    FilterAll(groups, mine);
  }

  /** A segment that commits with nothing staged before it swaps in its own rows. */
  lemma SegmentIsSwappedIn(db: Inv.Db, cfg: Inv.Config, info: RunInfo, bs: seq<Inv.Batch>)
    requires bs != [] && Segment(bs, info) && Inv.MetadataSafe(cfg, info.metadata) && Snap.AllCommit(db, cfg, bs)
    requires bs[0].index == 0 || Inv.OfRun(db.staging, info.run) == []
    ensures InventoryOf(Props.IngestAll(db, cfg, Snap.Commits(bs)).inventory, info.tenant)
            == Inv.GroupBy(Inv.Stamp(Snap.AllRows(bs), info.run, info.tenant))
  {
    var staged := Inv.Stamp(Snap.AllRows(bs), info.run, info.tenant);
    Snap.RestOfRun(db, cfg, bs, info.tenant, info.run, []);
    assert [] + staged == staged;
    SwappedInventory(db, info, staged);
  }

  lemma {:induction false} AllCommitSplit(db: Inv.Db, cfg: Inv.Config, a: seq<Inv.Batch>, b: seq<Inv.Batch>)
    requires Snap.AllCommit(db, cfg, a + b)
    ensures Snap.AllCommit(db, cfg, a) && Snap.AllCommit(Props.IngestAll(db, cfg, Snap.Commits(a)), cfg, b)
    decreases |a|
  {
    if a == [] {
      assert a + b == b && Snap.Commits(a) == [];
    } else {
      assert (a + b)[0] == a[0] && (a + b)[1..] == a[1..] + b;
      Snap.CommitsCons(a);
      Snap.AllCommitCons(db, cfg, a);
      Snap.AllCommitCons(db, cfg, a + b);
      AllCommitSplit(Inv.Ingest(db, cfg, a[0], true).0, cfg, a[1..], b);
    }
  }

  /** A committed flagged batch leaves nothing of its run staged. */
  lemma FlaggedClears(db: Inv.Db, cfg: Inv.Config, before: seq<Inv.Batch>, b: Inv.Batch)
    requires Snap.AllCommit(db, cfg, before + [b]) && b.IsLast() && b.rows != []
    ensures Inv.OfRun(Props.IngestAll(db, cfg, Snap.Commits(before + [b])).staging, b.run) == []
  {
    var db1 := Props.IngestAll(db, cfg, Snap.Commits(before));
    AllCommitSplit(db, cfg, before, [b]);
    Snap.FirstCommits(db1, cfg, [b]);
    assert Snap.CommitsNext(db1, cfg, [b], 0);
    Snap.IngestBoth(db, cfg, before, [b]);
    Snap.CommitsCons([b]);
    assert Snap.Commits([b])[1..] == [];
    FilterDisjoint(Inv.Stage(db1.staging, b), (r: Inv.StagedRow) => r.run != b.run,
                   (r: Inv.StagedRow) => r.run == b.run);
  }

  /** When no enqueued page but the last is flagged, the run leaves the aggregate of all its enqueued rows. */
  lemma RunIsSwappedIn(db: Inv.Db, cfg: Inv.Config, info: RunInfo, sends: Attempts, list: seq<Inv.StockRow>)
    requires Whole(sends, list) && Inv.MetadataSafe(cfg, info.metadata) && NoEarlyFlag(sends, 0)
    requires Snap.AllCommit(db, cfg, Kept(info, sends, 0, |sends|))
    ensures InventoryOf(Props.IngestAll(db, cfg, Snap.Commits(Kept(info, sends, 0, |sends|))).inventory, info.tenant)
            == Inv.GroupBy(Inv.Stamp(EnqueuedFrom(sends, 0), info.run, info.tenant))
  {
    KeptSegment(info, sends, list, 0);
    KeptStartsAtZero(info, sends, list);
    KeptRows(info, sends, 0);
    SegmentIsSwappedIn(db, cfg, info, Kept(info, sends, 0, |sends|));
  }

  /** The first enqueued batch has number 0. */
  lemma KeptStartsAtZero(info: RunInfo, sends: Attempts, list: seq<Inv.StockRow>)
    requires Whole(sends, list)
    ensures var bs := Kept(info, sends, 0, |sends|); bs != [] && bs[0].index == 0
  {
    var a, f := Enqueued(sends, list);
    KeptFirst(info, sends, f, a);
    FirstIsZero(sends, list, f);
  }

  lemma PageRowsFrom(list: seq<Inv.StockRow>, offset: nat, n: nat, from: nat, r: Inv.StockRow)
    requires from <= offset && from <= |list| && r in Slice(list, offset, n)
    ensures r in list[from..]
  {
    var page := Slice(list, offset, n);
    var y :| 0 <= y < |page| && page[y] == r;
    assert list[from..][offset - from + y] == r;
  }

  lemma {:induction false} EnqueuedRowsFrom(sends: Attempts, list: seq<Inv.StockRow>, k: nat, from: nat,
                                            r: Inv.StockRow)
    requires Regular(sends, list) && k <= |sends| && from <= |list| && r in EnqueuedFrom(sends, k)
    requires forall j: nat :: k <= j && IsEnqueued(sends, j) ==> sends[j].batch.offset >= from
    ensures r in list[from..]
    decreases |sends| - k
  {
    assert k < |sends|;
    if r in EnqueuedAt(sends, k) {
      PageRowsFrom(list, sends[k].batch.offset, sends[k].batch.size, from, r);
    } else {
      EnqueuedRowsFrom(sends, list, k + 1, from, r);
    }
  }

  /** After an enqueued page come only pages past row 0. */
  lemma LaterOffsets(sends: Attempts, list: seq<Inv.StockRow>, i: nat, j: nat)
    requires Regular(sends, list) && i < j && IsEnqueued(sends, i) && IsEnqueued(sends, j)
    ensures sends[j].batch.offset >= 1
  {
    LaterIndexIsLarger(sends, list, i, j);
    if sends[j].batch.offset == 0 {
      FirstIsZero(sends, list, j);
    }
  }

  lemma SplitAt(info: RunInfo, sends: Attempts, i: nat)
    requires i < |sends| && IsEnqueued(sends, i)
    ensures Kept(info, sends, 0, |sends|)
            == (Kept(info, sends, 0, i) + [info.Address(sends[i].batch)]) + Kept(info, sends, i + 1, |sends|)
  {
    var b, rest := info.Address(sends[i].batch), Kept(info, sends, i + 1, |sends|);
    KeptConcat(info, sends, 0, i, |sends|);
    assert Kept(info, sends, i, |sends|) == [b] + rest;
    ConcatAssoc(Kept(info, sends, 0, i), [b], rest);
  }

  /** After the last early flag, what is enqueued later is swapped in alone. */
  lemma AfterEarlyFlag(db: Inv.Db, cfg: Inv.Config, info: RunInfo, before: seq<Inv.Batch>, b: Inv.Batch,
                       rest: seq<Inv.Batch>)
    requires Snap.AllCommit(db, cfg, (before + [b]) + rest) && b.IsLast() && b.rows != [] && b.run == info.run
    requires rest != [] && Segment(rest, info) && Inv.MetadataSafe(cfg, info.metadata)
    ensures InventoryOf(Props.IngestAll(db, cfg, Snap.Commits((before + [b]) + rest)).inventory, info.tenant)
            == Inv.GroupBy(Inv.Stamp(Snap.AllRows(rest), info.run, info.tenant))
  {
    AllCommitSplit(db, cfg, before + [b], rest);
    FlaggedClears(db, cfg, before, b);
    Snap.IngestBoth(db, cfg, before + [b], rest);
    SegmentIsSwappedIn(Props.IngestAll(db, cfg, Snap.Commits(before + [b])), cfg, info, rest);
  }

  lemma RestAfterEarlyFlag(info: RunInfo, sends: Attempts, list: seq<Inv.StockRow>, i: nat)
    requires Whole(sends, list) && i < |sends| && NoEarlyFlag(sends, i + 1)
    requires exists j: nat :: i < j && IsEnqueued(sends, j)
    ensures var rest := Kept(info, sends, i + 1, |sends|);
            rest != [] && Segment(rest, info) && Snap.AllRows(rest) == EnqueuedFrom(sends, i + 1)
  {
    KeptIsEmpty(info, sends, i + 1);
    KeptSegment(info, sends, list, i + 1);
    KeptRows(info, sends, i + 1);
  }

  /** What is swapped in after an early flag lacks row 0. */
  lemma EarlyFlagLosesRowZero(db: Inv.Db, cfg: Inv.Config, info: RunInfo, sends: Attempts, list: seq<Inv.StockRow>)
    requires Whole(sends, list) && Inv.MetadataSafe(cfg, info.metadata) && !NoEarlyFlag(sends, 0)
    requires Snap.AllCommit(db, cfg, Kept(info, sends, 0, |sends|))
    requires DistinctStaged(Inv.Stamp(list, info.run, info.tenant))
    ensures var stamped, bs := Inv.Stamp(list, info.run, info.tenant), Kept(info, sends, 0, |sends|);
            var inventory := InventoryOf(Props.IngestAll(db, cfg, Snap.Commits(bs)).inventory, info.tenant);
            stamped != [] && MissingFrom(inventory, stamped[0])
  {
    var i := LastEarlyFlag(sends, 0);
    var before, rest := Kept(info, sends, 0, i), Kept(info, sends, i + 1, |sends|);
    SplitAt(info, sends, i);
    RestAfterEarlyFlag(info, sends, list, i);
    AfterEarlyFlag(db, cfg, info, before, info.Address(sends[i].batch), rest);
    RowZeroIsMissing(info, sends, list, i);
  }

  lemma OtherRowOtherKey(info: RunInfo, list: seq<Inv.StockRow>, r: Inv.StockRow)
    requires |list| > 0 && r in list[1..] && DistinctStaged(Inv.Stamp(list, info.run, info.tenant))
    ensures Inv.Key(info.tenant, r.product, r.warehouse) != Inv.Stamp(list, info.run, info.tenant)[0].key
  {
    var z :| 0 <= z < |list[1..]| && list[1..][z] == r;
    assert Inv.Stamp(list, info.run, info.tenant)[1 + z].key == Inv.Key(info.tenant, r.product, r.warehouse);
  }

  lemma LaterRowsSkipZero(info: RunInfo, sends: Attempts, list: seq<Inv.StockRow>, i: nat, r: Inv.StockRow)
    requires Regular(sends, list) && |list| > 0 && i < |sends| && IsEnqueued(sends, i)
    requires r in EnqueuedFrom(sends, i + 1)
    ensures r in list[1..]
  {
    forall j: nat | i < j && IsEnqueued(sends, j)
      ensures sends[j].batch.offset >= 1
    {
      LaterOffsets(sends, list, i, j);
    }
    EnqueuedRowsFrom(sends, list, i + 1, 1, r);
  }

  lemma RowZeroIsMissing(info: RunInfo, sends: Attempts, list: seq<Inv.StockRow>, i: nat)
    requires Regular(sends, list) && |list| > 0 && i < |sends| && IsEnqueued(sends, i)
    requires DistinctStaged(Inv.Stamp(list, info.run, info.tenant))
    ensures var rows := Inv.Stamp(EnqueuedFrom(sends, i + 1), info.run, info.tenant);
            Inv.Find(Inv.GroupBy(rows), Inv.Stamp(list, info.run, info.tenant)[0].key).None?
  {
    var first, enqueued := Inv.Stamp(list, info.run, info.tenant)[0].key, EnqueuedFrom(sends, i + 1);
    var rows := Inv.Stamp(enqueued, info.run, info.tenant);
    forall y | 0 <= y < |rows|
      ensures rows[y].key != first
    {
      assert enqueued[y] in enqueued;
      LaterRowsSkipZero(info, sends, list, i, enqueued[y]);
      OtherRowOtherKey(info, list, enqueued[y]);
    }
    NoGroupForKey(rows, first);
  }

  lemma {:induction false} EnqueuedContains(sends: Attempts, k: nat, j: nat, r: Inv.StockRow)
    requires k <= j && IsEnqueued(sends, j) && r in sends[j].batch.rows
    ensures r in EnqueuedFrom(sends, k)
    decreases j - k
  {
    if k < j {
      EnqueuedContains(sends, k + 1, j, r);
    }
  }

  lemma StampedMember(info: RunInfo, rows: seq<Inv.StockRow>, r: Inv.StockRow)
    requires r in rows
    ensures Inv.StagedRow(info.run, Inv.Key(info.tenant, r.product, r.warehouse), r.stock)
            in Inv.Stamp(rows, info.run, info.tenant)
  {
    var i :| 0 <= i < |rows| && rows[i] == r;
    assert Inv.Stamp(rows, info.run, info.tenant)[i].stock == r.stock;
  }

  /** How often rows of this key are staged by these rows. */
  function Copies(info: RunInfo, rows: seq<Inv.StockRow>, key: Inv.Key): nat {
    |Inv.OfKey(Inv.Stamp(rows, info.run, info.tenant), key)|
  }

  function KeyOf(info: RunInfo, r: Inv.StockRow): Inv.Key {
    Inv.Key(info.tenant, r.product, r.warehouse)
  }

  lemma StagedOnce(info: RunInfo, rows: seq<Inv.StockRow>, r: Inv.StockRow)
    requires r in rows
    ensures Copies(info, rows, KeyOf(info, r)) >= 1
  {
    StampedMember(info, rows, r);
    OfKeyMembers(Inv.Stamp(rows, info.run, info.tenant), KeyOf(info, r),
                 Inv.StagedRow(info.run, KeyOf(info, r), r.stock));
  }

  lemma CopiesConcat(info: RunInfo, a: seq<Inv.StockRow>, b: seq<Inv.StockRow>, key: Inv.Key)
    ensures Copies(info, a + b, key) == Copies(info, a, key) + Copies(info, b, key)
  {
    Snap.StampConcat(a, b, info.run, info.tenant);
    OfKeyConcat(Inv.Stamp(a, info.run, info.tenant), Inv.Stamp(b, info.run, info.tenant), key);
  }

  /** A row of two enqueued pages is staged twice. */
  lemma {:induction false} StagedTwice(info: RunInfo, sends: Attempts, k: nat, i: nat, j: nat, r: Inv.StockRow)
    requires k <= i < j && IsEnqueued(sends, i) && IsEnqueued(sends, j)
    requires r in sends[i].batch.rows && r in sends[j].batch.rows
    ensures Copies(info, EnqueuedFrom(sends, k), KeyOf(info, r)) >= 2
    decreases i - k
  {
    CopiesConcat(info, EnqueuedAt(sends, k), EnqueuedFrom(sends, k + 1), KeyOf(info, r));
    if k < i {
      StagedTwice(info, sends, k + 1, i, j, r);
    } else {
      EnqueuedContains(sends, k + 1, j, r);
      StagedOnce(info, EnqueuedAt(sends, k), r);
      StagedOnce(info, EnqueuedFrom(sends, k + 1), r);
    }
  }

  lemma EnqueuedFromList(info: RunInfo, sends: Attempts, list: seq<Inv.StockRow>)
    requires Regular(sends, list)
    ensures FromList(Inv.Stamp(EnqueuedFrom(sends, 0), info.run, info.tenant), Inv.Stamp(list, info.run, info.tenant))
  {
    var enqueued := EnqueuedFrom(sends, 0);
    var rows := Inv.Stamp(enqueued, info.run, info.tenant);
    forall y | 0 <= y < |rows|
      ensures rows[y] in Inv.Stamp(list, info.run, info.tenant)
    {
      assert enqueued[y] in enqueued;
      EnqueuedRowsFrom(sends, list, 0, 0, enqueued[y]);
      assert list[0..] == list;
      StampedMember(info, list, enqueued[y]);
    }
  }

  // ---------------------------------------------------------------------------------------------
  // What a loss that counts does
  // ---------------------------------------------------------------------------------------------

  function StockedMeasure(s: Inv.Stock): (m: Inv.Measure)
    requires !Stockless(s)
    ensures Inv.Value(s, m) != 0
  {
    if s.total != 0 then Inv.Total else if s.available != 0 then Inv.Available else Inv.Reserved
  }

  /** After a loss that counts, once every batch of the run has committed, a row of the list is missing from the
      inventory, or its stock is in there more than once. */
  lemma LossShows(db: Inv.Db, cfg: Inv.Config, info: RunInfo, sends: Attempts, list: seq<Inv.StockRow>)
    returns (x: nat, k: nat, m: Inv.Measure)
    requires Whole(sends, list) && !Harmless(sends, list) && Inv.MetadataSafe(cfg, info.metadata)
    requires Snap.AllCommit(db, cfg, Kept(info, sends, 0, |sends|))
    requires DistinctStaged(Inv.Stamp(list, info.run, info.tenant))
    ensures var bs, stamped := Kept(info, sends, 0, |sends|), Inv.Stamp(list, info.run, info.tenant);
            var inventory := InventoryOf(Props.IngestAll(db, cfg, Snap.Commits(bs)).inventory, info.tenant);
            x < |stamped| && (MissingFrom(inventory, stamped[x]) || CountedOften(inventory, stamped[x], k, m))
  {
    if !NoEarlyFlag(sends, 0) {
      EarlyFlagLosesRowZero(db, cfg, info, sends, list);
      x, k, m := 0, 0, Inv.Total;
    } else {
      RunIsSwappedIn(db, cfg, info, sends, list);
      x, k, m := RepeatedRow(info, sends, list);
    }
  }

  lemma HarmfulPair(sends: Attempts, list: seq<Inv.StockRow>) returns (i: nat, j: nat, x: nat)
    requires !Harmless(sends, list) && NoEarlyFlag(sends, 0)
    ensures i < j && IsEnqueued(sends, i) && IsEnqueued(sends, j)
    ensures x < |list| && Covers(sends[i].batch, x) && Covers(sends[j].batch, x) && !Stockless(list[x].stock)
  {
    i, j :| i < j && IsEnqueued(sends, i) && IsEnqueued(sends, j)
      && !HarmlessPair(sends[i].batch, sends[j].batch, list);
    x :| x < |list| && Covers(sends[i].batch, x) && Covers(sends[j].batch, x) && !Stockless(list[x].stock);
  }

  lemma CoveredRowIsSent(b: Paging.Batch<Inv.StockRow>, list: seq<Inv.StockRow>, x: nat)
    requires b.rows == Slice(list, b.offset, b.size) && Covers(b, x) && x < |list|
    ensures list[x] in b.rows
  {
    assert b.rows[x - b.offset] == list[x];
  }

  lemma RepeatedRow(info: RunInfo, sends: Attempts, list: seq<Inv.StockRow>) returns (x: nat, k: nat, m: Inv.Measure)
    requires Regular(sends, list) && !Harmless(sends, list) && NoEarlyFlag(sends, 0)
    requires DistinctStaged(Inv.Stamp(list, info.run, info.tenant))
    ensures var stamped, rows := Inv.Stamp(list, info.run, info.tenant),
            Inv.Stamp(EnqueuedFrom(sends, 0), info.run, info.tenant);
            x < |stamped| && CountedOften(Inv.GroupBy(rows), stamped[x], k, m)
  {
    var i, j, row := HarmfulPair(sends, list);
    x := row;
    var stamped, enqueued := Inv.Stamp(list, info.run, info.tenant), EnqueuedFrom(sends, 0);
    var rows := Inv.Stamp(enqueued, info.run, info.tenant);
    CoveredRowIsSent(sends[i].batch, list, x);
    CoveredRowIsSent(sends[j].batch, list, x);
    StagedTwice(info, sends, 0, i, j, list[x]);
    EnqueuedFromList(info, sends, list);
    assert stamped[x] in rows by {
      EnqueuedContains(sends, 0, i, list[x]);
      StampedMember(info, enqueued, list[x]);
    }
    k, m := |Inv.OfKey(rows, stamped[x].key)|, StockedMeasure(list[x].stock);
    GroupOfCopies(rows, stamped, stamped[x], m);
  }

  lemma TwiceIsNotOnce(k: nat, v: int)
    requires k >= 2 && v != 0
    ensures k * v != v
  {
    if v > 0 {
      assert k * v >= 2 * v;
    } else {
      assert k * v <= 2 * v;
    }
  }

  lemma HarmlessRunGroups(info: RunInfo, sends: Attempts, list: seq<Inv.StockRow>)
    requires Regular(sends, list) && Tiles(sends, 0, |list|) && Harmless(sends, list)
    requires DistinctStaged(Inv.Stamp(list, info.run, info.tenant))
    ensures Inv.GroupBy(Inv.Stamp(EnqueuedFrom(sends, 0), info.run, info.tenant))
            == Inv.GroupBy(Inv.Stamp(list, info.run, info.tenant))
  {
    EmptyEnds(sends);
    EmptyEnds(Inv.Stamp(list, info.run, info.tenant));
    EmptyEnds(Inv.Stamp(EnqueuedFrom(sends, 0), info.run, info.tenant));
    HarmlessRowsGroup(info, sends, list, 0, 0, 0, []);
  }

  lemma ShownIsDifferent(inventory: seq<Inv.InventoryRow>, stamped: seq<Inv.StagedRow>, x: nat, k: nat, m: Inv.Measure)
    requires DistinctStaged(stamped) && x < |stamped|
    requires MissingFrom(inventory, stamped[x]) || CountedOften(inventory, stamped[x], k, m)
    ensures inventory != Inv.GroupBy(stamped)
  {
    OwnGroup(stamped, |stamped|, x);
    assert stamped[..|stamped|] == stamped;
    if CountedOften(inventory, stamped[x], k, m) {
      TwiceIsNotOnce(k, Inv.Value(stamped[x].stock, m));
    }
  }

  /** Once every batch of a finished walk over rows with different keys has committed, the inventory is the
      aggregate of the list if and only if no loss counts. */
  lemma CommittedRunIff(db: Inv.Db, cfg: Inv.Config, info: RunInfo, sends: Attempts, list: seq<Inv.StockRow>)
    requires Whole(sends, list) && Inv.MetadataSafe(cfg, info.metadata)
    requires Snap.AllCommit(db, cfg, Kept(info, sends, 0, |sends|))
    requires DistinctStaged(Inv.Stamp(list, info.run, info.tenant))
    ensures var bs := Kept(info, sends, 0, |sends|);
            var inventory := InventoryOf(Props.IngestAll(db, cfg, Snap.Commits(bs)).inventory, info.tenant);
            inventory == Inv.GroupBy(Inv.Stamp(list, info.run, info.tenant)) <==> Harmless(sends, list)
  {
    var bs, stamped := Kept(info, sends, 0, |sends|), Inv.Stamp(list, info.run, info.tenant);
    if Harmless(sends, list) {
      assert NoEarlyFlag(sends, 0);
      RunIsSwappedIn(db, cfg, info, sends, list);
      HarmlessRunGroups(info, sends, list);
    } else {
      var x, k, m := LossShows(db, cfg, info, sends, list);
      var inventory := InventoryOf(Props.IngestAll(db, cfg, Snap.Commits(bs)).inventory, info.tenant);
      ShownIsDifferent(inventory, stamped, x, k, m);
    }
  }

  // ---------------------------------------------------------------------------------------------
  // When every batch commits
  // ---------------------------------------------------------------------------------------------

  /** The guard refuses no swap of such rows: under policy `allow` it refuses none, under `verify` none with a
      positive total. */
  ghost predicate Admissible(cfg: Inv.Config, stamped: seq<Inv.StagedRow>) {
    cfg.policy == Inv.Allow || forall r <- stamped :: r.stock.total > 0
  }

  lemma {:induction false} PositiveSum(rows: seq<Inv.StagedRow>)
    requires forall r <- rows :: r.stock.total > 0
    ensures Inv.SumStaged(rows, Inv.Everything, Inv.Total) >= |rows|
  {
    if rows != [] {
      PositiveSum(rows[1..]);
    }
  }

  lemma AdmissibleIsSafe(cfg: Inv.Config, staged: seq<Inv.StagedRow>, stamped: seq<Inv.StagedRow>,
                         inventory: seq<Inv.InventoryRow>, t: Tenant)
    requires Admissible(cfg, stamped) && FromList(staged, stamped) && staged != []
    ensures Inv.SwapSafe(cfg, staged, inventory, t)
  {
    if cfg.policy == Inv.Verify {
      PositiveSum(staged);
    }
  }

  /** A batch of the run, with rows of the list. */
  ghost predicate OfTheRun(b: Inv.Batch, info: RunInfo, cfg: Inv.Config, stamped: seq<Inv.StagedRow>) {
    && b.tenant == info.tenant && b.run == info.run && b.rows != [] && Inv.MetadataSafe(cfg, b.metadata)
    && FromList(Inv.Stamp(b.rows, b.run, b.tenant), stamped)
  }

  lemma OneCommits(db: Inv.Db, cfg: Inv.Config, info: RunInfo, b: Inv.Batch, stamped: seq<Inv.StagedRow>)
    requires Admissible(cfg, stamped) && OfTheRun(b, info, cfg, stamped)
    requires b.index == 0 || FromList(Inv.OfRun(db.staging, info.run), stamped)
    ensures var (db', outcome) := Inv.Ingest(db, cfg, b, true);
            outcome == Inv.Committed && FromList(Inv.OfRun(db'.staging, info.run), stamped)
  {
    var staging := Inv.Stage(db.staging, b);
    Snap.StageOfRun(db.staging, b);
    AdmissibleIsSafe(cfg, Inv.OfRun(staging, b.run), stamped, db.inventory, b.tenant);
    if b.IsLast() {
      FilterDisjoint(staging, (r: Inv.StagedRow) => r.run != b.run, (r: Inv.StagedRow) => r.run == b.run);
    }
  }

  lemma {:induction false} AllOfThemCommit(db: Inv.Db, cfg: Inv.Config, info: RunInfo, bs: seq<Inv.Batch>,
                                           stamped: seq<Inv.StagedRow>)
    requires Admissible(cfg, stamped) && forall b <- bs :: OfTheRun(b, info, cfg, stamped)
    requires bs != [] && (bs[0].index == 0 || FromList(Inv.OfRun(db.staging, info.run), stamped))
    ensures Snap.AllCommit(db, cfg, bs)
    decreases |bs|
  {
    assert bs[0] in bs;
    OneCommits(db, cfg, info, bs[0], stamped);
    Snap.AllCommitCons(db, cfg, bs);
    if |bs| > 1 {
      AllOfThemCommit(Inv.Ingest(db, cfg, bs[0], true).0, cfg, info, bs[1..], stamped);
    }
  }

  lemma SliceIsStamped(info: RunInfo, list: seq<Inv.StockRow>, offset: nat, n: nat)
    ensures FromList(Inv.Stamp(Slice(list, offset, n), info.run, info.tenant), Inv.Stamp(list, info.run, info.tenant))
  {
    var stamped, own := Inv.Stamp(list, info.run, info.tenant),
        Inv.Stamp(Slice(list, offset, n), info.run, info.tenant);
    assert forall x :: 0 <= x < |own| ==> own[x] == stamped[offset + x];
  }

  /** For admissible rows every batch of the run commits, whatever was lost. */
  lemma AdmissibleRunCommits(db: Inv.Db, cfg: Inv.Config, info: RunInfo, sends: Attempts, list: seq<Inv.StockRow>)
    requires Whole(sends, list) && Inv.MetadataSafe(cfg, info.metadata)
    requires Admissible(cfg, Inv.Stamp(list, info.run, info.tenant))
    ensures Snap.AllCommit(db, cfg, Kept(info, sends, 0, |sends|))
  {
    var bs, stamped := Kept(info, sends, 0, |sends|), Inv.Stamp(list, info.run, info.tenant);
    KeptStartsAtZero(info, sends, list);
    forall b | b in bs
      ensures OfTheRun(b, info, cfg, stamped)
    {
      var k := KeptMembers(info, sends, 0, |sends|, b);
      SliceIsStamped(info, list, sends[k].batch.offset, sends[k].batch.size);
    }
    AllOfThemCommit(db, cfg, info, bs, stamped);
  }

  /** Batches that follow others of their run with `done` staged, all from the list, swap in both. */
  lemma FollowingAreSwappedIn(db: Inv.Db, cfg: Inv.Config, info: RunInfo, bs: seq<Inv.Batch>,
                              stamped: seq<Inv.StagedRow>, done: seq<Inv.StagedRow>, own: seq<Inv.StagedRow>)
    requires bs != [] && Following(bs, info) && Inv.MetadataSafe(cfg, info.metadata)
    requires Inv.OfRun(db.staging, info.run) == done && own == Inv.Stamp(Snap.AllRows(bs), info.run, info.tenant) != []
    requires Admissible(cfg, stamped) && FromList(done, stamped) && FromList(own, stamped)
    requires forall r <- stamped :: r.key.tenant == info.tenant
    ensures InventoryOf(Props.IngestAll(db, cfg, Snap.Commits(bs)).inventory, info.tenant) == Inv.GroupBy(done + own)
  {
    AdmissibleIsSafe(cfg, done + own, stamped, db.inventory, info.tenant);
    Snap.RestCommits(db, cfg, bs, info.tenant, info.run, done);
    Snap.RestOfRun(db, cfg, bs, info.tenant, info.run, done);
    SwappedInventory(db, info, done + own);
  }

  /** The acknowledged rest of a run, after rows `done` have been staged, is swapped in together with these. */
  lemma RestIsSwappedIn(db: Inv.Db, cfg: Inv.Config, info: RunInfo, sends: Attempts, list: seq<Inv.StockRow>,
                        m: nat, c: nat, done: seq<Inv.StagedRow>)
    requires Whole(sends, list) && Inv.MetadataSafe(cfg, info.metadata)
    requires m < |sends| && 0 < c < |list| && Tiles(sends[m..], c, |list|) && NoneLost(sends, m)
    requires var stamped := Inv.Stamp(list, info.run, info.tenant); Admissible(cfg, stamped) && FromList(done, stamped)
    requires Inv.OfRun(db.staging, info.run) == done
    ensures var bs, stamped := Kept(info, sends, m, |sends|), Inv.Stamp(list, info.run, info.tenant);
            InventoryOf(Props.IngestAll(db, cfg, Snap.Commits(bs)).inventory, info.tenant)
            == Inv.GroupBy(done + stamped[c..])
  {
    var bs, stamped := Kept(info, sends, m, |sends|), Inv.Stamp(list, info.run, info.tenant);
    Remaining(info, sends, list, m, c);
    RemainingRows(info, sends, list, m, c);
    StampRest(info, list, c);
    FollowingAreSwappedIn(db, cfg, info, bs, stamped, done, stamped[c..]);
  }
}
