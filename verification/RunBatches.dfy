/** The batches of one inventory run as the backend sees them: which of the client's attempts are enqueued,
    and when they make up a run that carries exactly the client's list. */
module RunBatches {
  import opened Common
  import opened Paging
  import opened PagingProperties
  import opened Reach
  import opened ExactDelivery
  import SyncClient
  import Watermarks
  import Inv = Inventory
  import Snap = InventorySnapshot

  /** What the client puts on every batch of an inventory run. */
  datatype RunInfo = RunInfo(tenant: Tenant, run: Inv.RunId, metadata: Option<Inv.Metadata>) {
    function Address(b: Paging.Batch<Inv.StockRow>): Inv.Batch {
      Inv.Batch(tenant, run, b.index, b.totalBatches, b.rows, metadata)
    }
  }

  type Attempts = seq<Sent<Inv.StockRow>>

  // ---------------------------------------------------------------------------------------------
  // The enqueued batches
  // ---------------------------------------------------------------------------------------------

  ghost function KeptAt(info: RunInfo, sends: Attempts, k: nat): seq<Inv.Batch>
    requires k < |sends|
  {
    if IsEnqueued(sends, k) then [info.Address(sends[k].batch)] else []
  }

  /** The batches enqueued by the attempts from number `i` up to number `j`. */
  ghost function Kept(info: RunInfo, sends: Attempts, i: nat, j: nat): seq<Inv.Batch>
    requires i <= j <= |sends|
    decreases j - i
  {
    if i == j then [] else KeptAt(info, sends, i) + Kept(info, sends, i + 1, j)
  }

  lemma {:induction false} KeptConcat(info: RunInfo, sends: Attempts, i: nat, j: nat, k: nat)
    requires i <= j <= k <= |sends|
    ensures Kept(info, sends, i, k) == Kept(info, sends, i, j) + Kept(info, sends, j, k)
    decreases j - i
  {
    if i < j {
      KeptConcat(info, sends, i + 1, j, k);
    }
  }

  lemma {:induction false} KeptNone(info: RunInfo, sends: Attempts, i: nat, j: nat)
    requires i <= j <= |sends| && forall k: nat :: i <= k < j ==> !IsEnqueued(sends, k)
    ensures Kept(info, sends, i, j) == []
    decreases j - i
  {
    if i < j {
      KeptNone(info, sends, i + 1, j);
      assert !IsEnqueued(sends, i);
    }
  }

  lemma {:induction false} KeptMembers(info: RunInfo, sends: Attempts, i: nat, j: nat, b: Inv.Batch) returns (k: nat)
    requires i <= j <= |sends| && b in Kept(info, sends, i, j)
    ensures i <= k < j && IsEnqueued(sends, k) && b == info.Address(sends[k].batch)
    decreases j - i
  {
    if b in KeptAt(info, sends, i) {
      k := i;
    } else {
      k := KeptMembers(info, sends, i + 1, j, b);
    }
  }

  lemma {:induction false} KeptRows(info: RunInfo, sends: Attempts, i: nat)
    requires i <= |sends|
    ensures Snap.AllRows(Kept(info, sends, i, |sends|)) == EnqueuedFrom(sends, i)
    decreases |sends| - i
  {
    if i < |sends| {
      KeptRows(info, sends, i + 1);
      var own, rest := KeptAt(info, sends, i), Kept(info, sends, i + 1, |sends|);
      if own != [] {
        assert (own + rest)[1..] == rest;
      } else {
        assert own + rest == rest;
      }
    }
  }

  // ---------------------------------------------------------------------------------------------
  // A finished walk
  // ---------------------------------------------------------------------------------------------

  ghost predicate AllAligned<T>(sends: seq<Sent<T>>) {
    forall s <- sends :: Aligned(s.batch)
  }

  /** A finished inventory walk from some row to the end of a list that the row count describes, in aligned
      chunks, in any weather. */
  ghost predicate FinishedWalk<T(!new)>(env: Env<T>, list: seq<T>, from: nat, size: nat) {
    && size > 0 && env.minSize > 0
    && PagesOf(env.page, list) && env.count == |list| && from < |list|
    && Walk(env, 0, from, size).exit == Finished && AllAligned(Walk(env, 0, from, size).sends)
  }

  ghost predicate WholeWalk<T(!new)>(env: Env<T>, list: seq<T>, size: nat) {
    FinishedWalk(env, list, 0, size)
  }

  /** No acknowledgement was lost, or the list fitted even into the last chunk size tried. */
  ghost predicate Lossless<T>(sends: seq<Sent<T>>, list: seq<T>) {
    NoLostAck(sends) || (|sends| > 0 && |list| <= sends[|sends| - 1].batch.size)
  }

  /** What is known of the attempts of a finished walk, wherever it starts. */
  ghost predicate Shaped<T(!new)>(sends: seq<Sent<T>>, list: seq<T>) {
    && Regular(sends, list)
    && (forall i :: 0 <= i < |sends| && sends[i].acked ==> (Flagged(sends[i].batch) <==> i == |sends| - 1))
    && (forall i :: 0 <= i < |sends| ==> sends[i].batch.totalBatches == TotalBatches(|list|, sends[i].batch.size))
  }

  ghost predicate Whole<T(!new)>(sends: seq<Sent<T>>, list: seq<T>) {
    Ended(sends, list) && Shaped(sends, list)
  }

  lemma FinishedWalkIsShaped<T(!new)>(env: Env<T>, list: seq<T>, from: nat, size: nat)
    requires FinishedWalk(env, list, from, size)
    ensures var sends := Walk(env, 0, from, size).sends; Shaped(sends, list) && Tiles(sends, from, |list|)
  {
    var sends := Walk(env, 0, from, size).sends;
    WalkIsRegular(env, list, from, size);
    AlignedRunFlagsItsFinalBatch(env, list, 0, from, size);
    forall i | 0 <= i < |sends|
      ensures sends[i].batch.totalBatches == TotalBatches(|list|, sends[i].batch.size)
    {
      SendShape(env, 0, from, size, sends[i]);
    }
  }

  lemma WholeWalkIsWhole<T(!new)>(env: Env<T>, list: seq<T>, size: nat)
    requires WholeWalk(env, list, size)
    ensures Whole(Walk(env, 0, 0, size).sends, list)
  {
    FinishedWalkIsShaped(env, list, 0, size);
    FinishedRunEndsAtLastRow(env, list, 0, 0, size);
  }

  /** The walk is that of an inventory run of the client which is not resumed: a requested full run, or
      one without a checkpoint. */
  lemma UnresumedRunWalksFromRowZero(s: SyncClient.Settings, file: Watermarks.File, req: SyncClient.Request,
                                     getCount: SyncClient.Counter, getPage: SyncClient.WindowPager<Inv.StockRow>,
                                       list: seq<Inv.StockRow>)
    requires req.full || !file.Load().HasCheckpoint()
    requires forall last, end :: getCount(last, end) == |list| > 0
    requires forall last, end, offset: nat, n: nat :: getPage(last, end, offset, n) == Slice(list, offset, n)
    ensures var plan := SyncClient.MakePlan(false, file, req, getCount);
            var env, size := SyncClient.EnvOf(Watermarks.Inventory, plan, req, getPage),
                SyncClient.ConfiguredBatchSize(Watermarks.Inventory, s);
            var run := SyncClient.RunOnce(Watermarks.Inventory, false, s, file, req, getCount, getPage);
            && run.sends == Walk(env, 0, 0, size).sends
            && (Walk(env, 0, 0, size).exit == Finished && AllAligned(run.sends) ==> WholeWalk(env, list, size))
            && (WholeWalk(env, list, size) ==> run.status == SyncClient.Ok && run.rowsSynced == |list|)
  {
    var plan := SyncClient.MakePlan(false, file, req, getCount);
    var env, size := SyncClient.EnvOf(Watermarks.Inventory, plan, req, getPage),
        SyncClient.ConfiguredBatchSize(Watermarks.Inventory, s);
    assert plan.start == 0 && plan.count == |list|;
    if WholeWalk(env, list, size) {
      var w := Walk(env, 0, 0, size);
      WholeWalkIsWhole(env, list, size);
      WalkTiles(env, 0, 0, size);
      TilesEndOnce(w.sends, 0, w.offset, |list|);
    }
  }

  lemma {:induction false} TilesEndOnce<T>(sends: seq<Sent<T>>, from: nat, to: nat, other: nat)
    requires Tiles(sends, from, to) && Tiles(sends, from, other)
    ensures to == other
  {
    if sends != [] {
      TilesEndOnce(sends[1..], NextFrom(sends[0], from), to, other);
    }
  }

  // ---------------------------------------------------------------------------------------------
  // The batches past row 0
  // ---------------------------------------------------------------------------------------------

  /** Batches that may follow the first one of a run: only the last is flagged. */
  ghost predicate Following(bs: seq<Inv.Batch>, info: RunInfo) {
    forall x :: 0 <= x < |bs| ==>
      && bs[x].tenant == info.tenant && bs[x].run == info.run && bs[x].metadata == info.metadata
      && bs[x].rows != [] && bs[x].index != 0
      && (bs[x].IsLast() <==> x == |bs| - 1)
  }

  lemma PositiveQuotient(n: nat, d: nat)
    requires d > 0 && n > 0 && n % d == 0
    ensures n / d != 0
  {
  }

  lemma PastRowZero<T(!new)>(sends: seq<Sent<T>>, list: seq<T>, k: nat)
    requires Regular(sends, list) && k < |sends| && sends[k].batch.offset > 0
    ensures (IsEnqueued(sends, k) <==> sends[k].delivered) && sends[k].batch.index != 0
  {
    DeliveredIsEnqueued(sends, list, k);
    PositiveQuotient(sends[k].batch.offset, sends[k].batch.size);
  }

  lemma OneFollows(own: seq<Inv.Batch>, rest: seq<Inv.Batch>, info: RunInfo)
    requires Following(rest, info) && |own| <= 1
    requires own != [] ==>
               && own[0].tenant == info.tenant && own[0].run == info.run && own[0].metadata == info.metadata
               && own[0].rows != [] && own[0].index != 0 && (own[0].IsLast() <==> rest == [])
    ensures Following(own + rest, info)
  {
  }

  /** Once the position has left row 0 and no acknowledgement is lost any more, every acknowledged page is
      enqueued. */
  lemma {:induction false} Remaining(info: RunInfo, sends: Attempts, list: seq<Inv.StockRow>, m: nat, from: nat)
    requires Shaped(sends, list) && m <= |sends| && 0 < from <= |list| && Tiles(sends[m..], from, |list|)
    requires NoneLost(sends, m)
    ensures var bs := Kept(info, sends, m, |sends|);
            Following(bs, info) && (bs == [] <==> m == |sends|)
    decreases |sends| - m
  {
    if m < |sends| {
      var next, own, rest := NextFrom(sends[m], from), KeptAt(info, sends, m), Kept(info, sends, m + 1, |sends|);
      OneAttempt(sends, list, m, from, |list|);
      assert sends[m..][0] == sends[m];
      PastRowZero(sends, list, m);
      Remaining(info, sends, list, m + 1, next);
      OneFollows(own, rest, info);
    }
  }

  lemma RemainingRows(info: RunInfo, sends: Attempts, list: seq<Inv.StockRow>, m: nat, from: nat)
    requires Shaped(sends, list) && m <= |sends| && 0 < from <= |list| && Tiles(sends[m..], from, |list|)
    requires NoneLost(sends, m)
    ensures Snap.AllRows(Kept(info, sends, m, |sends|)) == list[from..]
  {
    KeptRows(info, sends, m);
    RowsPastZero(sends, list, m, from, |list|);
    assert list[from..|list|] == list[from..];
  }

  // ---------------------------------------------------------------------------------------------
  // When the run carries the list
  // ---------------------------------------------------------------------------------------------

  lemma KeptFirst(info: RunInfo, sends: Attempts, f: nat, a: nat)
    requires f <= a < |sends| && forall k: nat :: k <= a ==> (IsEnqueued(sends, k) <==> k == f)
    ensures Kept(info, sends, 0, |sends|) == [info.Address(sends[f].batch)] + Kept(info, sends, a + 1, |sends|)
  {
    KeptConcat(info, sends, 0, f, |sends|);
    KeptConcat(info, sends, f + 1, a + 1, |sends|);
    KeptNone(info, sends, 0, f);
    KeptNone(info, sends, f + 1, a + 1);
    assert IsEnqueued(sends, f);
  }

  lemma FlaggedAtRowZero<T(!new)>(sends: seq<Sent<T>>, list: seq<T>, f: nat)
    requires Whole(sends, list) && f < |sends| && sends[f].batch.offset == 0 && |list| <= sends[f].batch.size
    ensures Flagged(sends[f].batch)
  {
    AlignedChunkIsFlagged(|list|, 0, sends[f].batch.size);
  }

  lemma FirstIsZero<T(!new)>(sends: seq<Sent<T>>, list: seq<T>, f: nat)
    requires Regular(sends, list) && f < |sends| && sends[f].batch.offset == 0
    ensures sends[f].batch.index == 0
  {
    QuotientFromBounds(0, sends[f].batch.size, 0);
  }

  /** Of a run without a loss that counts, what follows the first acknowledged page `a`, and whether the
      enqueued page `f` of its number is flagged. */
  lemma RestWhenNothingIsLost(info: RunInfo, sends: Attempts, list: seq<Inv.StockRow>, a: nat)
    requires Whole(sends, list) && a < |sends| && sends[a].acked && sends[a].batch.offset == 0
    requires Tiles(sends[a + 1..], |sends[a].batch.rows|, |list|) && NoneLost(sends, a + 1)
    ensures var rest := Kept(info, sends, a + 1, |sends|);
            Following(rest, info) && (Flagged(sends[a].batch) <==> rest == [])
  {
    var n := |sends[a].batch.rows|;
    assert n <= |list| by { CountPastZero(sends, list, a + 1, n, |list|); }
    Remaining(info, sends, list, a + 1, n);
  }

  lemma RestOfShortList(info: RunInfo, sends: Attempts, list: seq<Inv.StockRow>, a: nat, f: nat)
    requires Whole(sends, list) && a < |sends| && sends[a].batch.offset == 0
    requires Tiles(sends[a + 1..], |sends[a].batch.rows|, |list|)
    requires f <= a && sends[f].batch.offset == 0 && sends[f].batch.size >= sends[a].batch.size
    requires |list| <= sends[|sends| - 1].batch.size
    ensures Kept(info, sends, a + 1, |sends|) == [] && Flagged(sends[f].batch)
  {
    var last := sends[|sends| - 1].batch;
    assert last.offset == 0 by { AlignedAtRowZero(last.offset, last.size, |list|); }
    assert a == |sends| - 1 by { LastIsFirst(sends, list, a); }
    FlaggedAtRowZero(sends, list, f);
  }

  /** The first enqueued batch, and what follows it. */
  lemma LosslessShape(info: RunInfo, sends: Attempts, list: seq<Inv.StockRow>)
    returns (first: Inv.Batch, rest: seq<Inv.Batch>)
    requires Whole(sends, list) && Lossless(sends, list)
    ensures Kept(info, sends, 0, |sends|) == [first] + rest
    ensures first.tenant == info.tenant && first.run == info.run && first.metadata == info.metadata
    ensures first.rows != [] && first.index == 0 && (first.IsLast() <==> rest == [])
    ensures Following(rest, info)
  {
    var a, f := Enqueued(sends, list);
    first, rest := info.Address(sends[f].batch), Kept(info, sends, a + 1, |sends|);
    assert Kept(info, sends, 0, |sends|) == [first] + rest by { KeptFirst(info, sends, f, a); }
    assert first.index == 0 by { FirstIsZero(sends, list, f); }
    if NoLostAck(sends) {
      RestWhenNothingIsLost(info, sends, list, a);
    } else {
      RestOfShortList(info, sends, list, a, f);
    }
  }

  /** Without a loss that counts, the enqueued batches are a run of the backend, and its rows are the list. */
  lemma LosslessWalkIsRun(info: RunInfo, sends: Attempts, list: seq<Inv.StockRow>, cfg: Inv.Config)
    requires Whole(sends, list) && Lossless(sends, list) && Inv.MetadataSafe(cfg, info.metadata)
    ensures var bs := Kept(info, sends, 0, |sends|);
            Snap.IsRun(bs, cfg, info.tenant, info.run) && Snap.AllRows(bs) == list
  {
    var first, rest := LosslessShape(info, sends, list);
    var bs := Kept(info, sends, 0, |sends|);
    assert forall i :: 0 < i < |bs| ==> bs[i] == rest[i - 1];
    KeptRows(info, sends, 0);
    OnceIff(sends, list);
  }

  // ---------------------------------------------------------------------------------------------
  // When it does not
  // ---------------------------------------------------------------------------------------------

  lemma {:induction false} LastLost<T>(sends: seq<Sent<T>>, k: nat) returns (last: nat)
    requires k <= |sends| && !NoneLost(sends, k)
    ensures k <= last < |sends| && sends[last].delivered && !sends[last].acked && NoneLost(sends, last + 1)
    decreases |sends| - k
  {
    if NoneLost(sends, k + 1) {
      last := k;
    } else {
      last := LastLost(sends, k + 1);
    }
  }

  /** The position that the acknowledged pages before attempt `k` have reached. */
  lemma {:induction false} PositionAt<T>(sends: seq<Sent<T>>, from: nat, to: nat, k: nat) returns (at: nat)
    requires Tiles(sends, from, to) && k < |sends|
    ensures sends[k].batch.offset == at && Tiles(sends[k..], at, to)
    ensures !sends[k].acked ==> Tiles(sends[k + 1..], at, to)
  {
    if k == 0 {
      at := from;
      assert sends[0..] == sends;
    } else {
      at := PositionAt(sends[1..], NextFrom(sends[0], from), to, k - 1);
      assert sends[1..][k - 1..] == sends[k..] && sends[1..][k..] == sends[k + 1..];
    }
  }

  /** Of the last loss that counts, an enqueued page `j` stays behind: the acknowledged pages from attempt `m`
      on start at its row `c`, past row 0, and bring in the rest of the list. */
  ghost predicate StaysBehind<T(!new)>(sends: seq<Sent<T>>, list: seq<T>, j: nat, m: nat, c: nat) {
    && j < m <= |sends| && IsEnqueued(sends, j)
    && (forall k: nat :: j < k < m ==> !IsEnqueued(sends, k))
    && 0 < c < |list| && Covers(sends[j].batch, c)
    && Tiles(sends[m..], c, |list|) && NoneLost(sends, m)
  }

  lemma LostBeforeAcked<T(!new)>(sends: seq<Sent<T>>, list: seq<T>, lost: nat, a: nat)
    requires Regular(sends, list) && lost < |sends| && a < |sends|
    requires sends[lost].batch.offset == 0 && sends[a].batch.offset == 0 && !sends[lost].acked && sends[a].acked
    ensures lost < a
  {
    FirstIsZero(sends, list, lost);
    FirstIsZero(sends, list, a);
  }

  lemma CoversNext<T(!new)>(sends: seq<Sent<T>>, list: seq<T>, f: nat, a: nat)
    requires Regular(sends, list) && f < |sends| && a < |sends|
    requires sends[f].batch.offset == 0 && sends[a].batch.offset == 0
    requires sends[a].batch.size < sends[f].batch.size && sends[a].batch.size < |list|
    ensures 0 < |sends[a].batch.rows| < |list| && Covers(sends[f].batch, |sends[a].batch.rows|)
  {
  }

  lemma NoneLostLater<T>(sends: seq<Sent<T>>, k: nat, m: nat)
    requires NoneLost(sends, k) && k <= m
    ensures NoneLost(sends, m)
  {
  }

  lemma LossAtRowZero<T(!new)>(sends: seq<Sent<T>>, list: seq<T>, lost: nat) returns (j: nat, m: nat, c: nat)
    requires Whole(sends, list) && |list| > sends[|sends| - 1].batch.size
    requires lost < |sends| && sends[lost].delivered && !sends[lost].acked && NoneLost(sends, lost + 1)
    requires sends[lost].batch.offset == 0
    ensures StaysBehind(sends, list, j, m, c)
  {
    var a, f := Enqueued(sends, list);
    j, m, c := f, a + 1, |sends[a].batch.rows|;
    LostBeforeAcked(sends, list, lost, a);
    NoneLostLater(sends, lost + 1, m);
    LongerThanPage(sends, list, a);
    assert f < a by {
      NoneLostIsNoLostAck(sends);
    }
    CoversNext(sends, list, f, a);
  }

  lemma LossPastRowZero<T(!new)>(sends: seq<Sent<T>>, list: seq<T>, lost: nat) returns (j: nat, m: nat, c: nat)
    requires Whole(sends, list) && lost < |sends| && sends[lost].delivered && !sends[lost].acked
    requires NoneLost(sends, lost + 1)
    requires sends[lost].batch.offset > 0
    ensures StaysBehind(sends, list, j, m, c)
  {
    var at := PositionAt(sends, 0, |list|, lost);
    PastRowZero(sends, list, lost);
    j, m, c := lost, lost + 1, at;
  }

  lemma LossStaysBehind<T(!new)>(sends: seq<Sent<T>>, list: seq<T>) returns (j: nat, m: nat, c: nat)
    requires Whole(sends, list) && !Lossless(sends, list)
    ensures StaysBehind(sends, list, j, m, c)
  {
    NoneLostIsNoLostAck(sends);
    var lost := LastLost(sends, 0);
    if sends[lost].batch.offset == 0 {
      j, m, c := LossAtRowZero(sends, list, lost);
    } else {
      j, m, c := LossPastRowZero(sends, list, lost);
    }
  }

  // ---------------------------------------------------------------------------------------------
  // Resumed runs
  // ---------------------------------------------------------------------------------------------

  /** What a run resumed past row 0 gets enqueued when nothing is lost: the rest of the list. */
  lemma ResumedWalkIsTail(env: Env<Inv.StockRow>, list: seq<Inv.StockRow>, from: nat, size: nat, info: RunInfo)
    requires FinishedWalk(env, list, from, size) && from > 0 && NoLostAck(Walk(env, 0, from, size).sends)
    ensures var sends := Walk(env, 0, from, size).sends;
            var bs := Kept(info, sends, 0, |sends|);
            bs != [] && Following(bs, info) && Snap.AllRows(bs) == list[from..]
  {
    var sends := Walk(env, 0, from, size).sends;
    FinishedWalkIsShaped(env, list, from, size);
    FinishedRunEndsAtLastRow(env, list, 0, from, size);
    NoneLostIsNoLostAck(sends);
    assert sends[0..] == sends;
    Remaining(info, sends, list, 0, from);
    RemainingRows(info, sends, list, 0, from);
  }
}
