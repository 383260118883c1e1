/** What the paging loop guarantees about the batches it sends, for every weather. */
module PagingProperties {
  import opened Common
  import opened Paging

  /** The acknowledged pages lie end to end from `from` to `to`; every other attempt was made at the
      position reached so far. */
  ghost predicate Tiles<T>(sends: seq<Sent<T>>, from: nat, to: nat) {
    if sends == [] then from == to
    else
      var b := sends[0].batch;
      && b.offset == from
      && b.rows != []
      && Tiles(sends[1..], if sends[0].acked then from + |b.rows| else from, to)
  }

  lemma {:induction false} WalkTiles<T>(env: Env<T>, k: nat, offset: nat, size: nat)
    requires size > 0 && env.minSize > 0
    ensures Tiles(Walk(env, k, offset, size).sends, offset, Walk(env, k, offset, size).offset)
    decreases Max(0, env.count - offset), size
  {
    match TakeTurn(env, env.weather(k), offset, size)
    case Stop(walked) =>
    case Go(sent, next, size') =>
      WalkTiles(env, k + 1, next, size');
      var rest := Walk(env, k + 1, next, size').sends;
      assert ([sent] + rest)[1..] == rest;
  }

  /** Why the loop stopped, and what every attempt was. */
  lemma {:induction false} WalkShapes<T>(env: Env<T>, k: nat, offset: nat, size: nat)
    requires size > 0 && env.minSize > 0
    ensures var w := Walk(env, k, offset, size);
            && (w.exit == Finished ==> env.count <= w.offset)
            && (w.exit == EmptyPage ==> exists n: nat :: n > 0 && env.page(w.offset, n) == [])
            && (forall s <- w.sends ::
                  && 0 < s.batch.size
                  && s.batch.offset < env.count
                  && s.batch == MakeBatch(env.page, env.count, s.batch.offset, s.batch.size)
                  && (s.acked ==> s.delivered))
    decreases Max(0, env.count - offset), size
  {
    match TakeTurn(env, env.weather(k), offset, size)
    case Stop(walked) =>
      if walked.exit == EmptyPage {
        assert env.page(offset, size) == [];
      }
    case Go(_, next, size') => WalkShapes(env, k + 1, next, size');
  }

  lemma SendShape<T>(env: Env<T>, k: nat, offset: nat, size: nat, s: Sent<T>)
    requires size > 0 && env.minSize > 0 && s in Walk(env, k, offset, size).sends
    ensures 0 < s.batch.size && s.batch.offset < env.count
    ensures s.batch == MakeBatch(env.page, env.count, s.batch.offset, s.batch.size)
  {
    WalkShapes(env, k, offset, size);
  }

  /** Batch numbers never fall below the current chunk number, and every page past the current
      position has a larger one. */
  lemma {:induction false} IndexFloor<T(!new)>(env: Env<T>, list: seq<T>, k: nat, offset: nat, size: nat)
    requires size > 0 && env.minSize > 0 && PagesOf(env.page, list)
    ensures forall s <- Walk(env, k, offset, size).sends ::
              && s.batch.offset >= offset
              && s.batch.size <= size
              && s.batch.index >= offset / size
              && (s.batch.offset > offset ==> s.batch.index > offset / size)
    decreases Max(0, env.count - offset), size
  {
    match TakeTurn(env, env.weather(k), offset, size)
    case Stop(_) =>
    case Go(sent, next, size') =>
      NextFloor(env, list, k, offset, size);
      if sent.acked && |sent.batch.rows| < size {
        EndOfList(env, list, k + 1, next, size);
      } else {
        IndexFloor(env, list, k + 1, next, size');
      }
  }

  /** How the chunk number moves in one turn: up by one after a full page, never down otherwise. */
  lemma NextFloor<T(!new)>(env: Env<T>, list: seq<T>, k: nat, offset: nat, size: nat)
    requires size > 0 && env.minSize > 0 && PagesOf(env.page, list)
    requires TakeTurn(env, env.weather(k), offset, size).Go?
    ensures var turn := TakeTurn(env, env.weather(k), offset, size);
            && turn.sent.batch == MakeBatch(env.page, env.count, offset, size)
            && |turn.sent.batch.rows| <= size
            && turn.size <= size
            && (turn.sent.acked ==> turn.size == size && turn.offset == offset + |turn.sent.batch.rows|)
            && (turn.sent.acked && |turn.sent.batch.rows| < size ==> turn.offset == |list|)
            && (turn.sent.acked && |turn.sent.batch.rows| == size ==> turn.offset / turn.size == offset / size + 1)
            && (!turn.sent.acked ==>
                  turn.offset == offset && turn.size < size && turn.offset / turn.size >= offset / size)
  {
    var turn := TakeTurn(env, env.weather(k), offset, size);
    assert env.page(offset, size) == Slice(list, offset, size);
    if turn.sent.acked {
      QuotientOfNextPage(offset, size);
    } else {
      QuotientMonotone(offset, offset, size, turn.size);
    }
  }

  lemma PrependKeepsOrder<T>(sent: Sent<T>, rest: seq<Sent<T>>)
    requires IndexOrder(rest)
    requires forall s <- rest ::
               && sent.batch.index <= s.batch.index
               && (sent.acked ==> sent.batch.index < s.batch.index)
               && (sent.batch.index == s.batch.index
                   ==> sent.batch.offset == s.batch.offset && s.batch.size < sent.batch.size)
    ensures IndexOrder([sent] + rest)
  {
  }

  lemma EndOfList<T(!new)>(env: Env<T>, list: seq<T>, k: nat, offset: nat, size: nat)
    requires size > 0 && env.minSize > 0 && PagesOf(env.page, list) && |list| <= offset
    ensures Walk(env, k, offset, size).sends == []
  {
    assert env.page(offset, size) == [];
  }

  /** Batch numbers along a run: they never decrease, they increase after every acknowledged batch,
      and two attempts share a number only when they start at the same row, the later being smaller. */
  ghost predicate IndexOrder<T>(sends: seq<Sent<T>>) {
    forall i, j :: 0 <= i < j < |sends| ==>
      var a, b := sends[i].batch, sends[j].batch;
      && a.index <= b.index
      && (sends[i].acked ==> a.index < b.index)
      && (a.index == b.index ==> a.offset == b.offset && b.size < a.size)
  }

  lemma {:induction false} BatchIndicesIncrease<T(!new)>(env: Env<T>, list: seq<T>, k: nat, offset: nat, size: nat)
    requires size > 0 && env.minSize > 0 && PagesOf(env.page, list)
    ensures IndexOrder(Walk(env, k, offset, size).sends)
    decreases Max(0, env.count - offset), size
  {
    match TakeTurn(env, env.weather(k), offset, size)
    case Stop(_) =>
    case Go(sent, next, size') =>
      NextFloor(env, list, k, offset, size);
      if sent.acked && |sent.batch.rows| < size {
        EndOfList(env, list, k + 1, next, size);
      } else {
        BatchIndicesIncrease(env, list, k + 1, next, size');
        IndexFloor(env, list, k + 1, next, size');
        PrependKeepsOrder(sent, Walk(env, k + 1, next, size').sends);
      }
  }

  // ---------------------------------------------------------------------------------------------
  // Lost acknowledgements
  // ---------------------------------------------------------------------------------------------

  /** The backend enqueues a delivered batch unless an earlier one of the run has the same number. */
  ghost predicate IsEnqueued<T>(sends: seq<Sent<T>>, i: nat) {
    && i < |sends|
    && sends[i].delivered
    && forall j :: 0 <= j < i && sends[j].delivered ==> sends[j].batch.index != sends[i].batch.index
  }

  predicate Covers<T>(b: Batch<T>, x: nat) {
    b.offset <= x < b.offset + |b.rows|
  }

  lemma {:induction false} FirstDelivered<T>(sends: seq<Sent<T>>, i: nat) returns (j: nat)
    requires i < |sends| && sends[i].delivered
    ensures j <= i && IsEnqueued(sends, j) && sends[j].batch.index == sends[i].batch.index
  {
    j := i;
    if j' :| 0 <= j' < i && sends[j'].delivered && sends[j'].batch.index == sends[i].batch.index {
      j := FirstDelivered(sends, j');
    }
  }

  lemma {:induction false} AckedPageAt<T>(sends: seq<Sent<T>>, from: nat, to: nat, x: nat) returns (i: nat)
    requires Tiles(sends, from, to) && from <= x < to
    ensures i < |sends| && sends[i].acked && Covers(sends[i].batch, x)
  {
    var next := if sends[0].acked then from + |sends[0].batch.rows| else from;
    if sends[0].acked && x < next {
      i := 0;
    } else {
      i := AckedPageAt(sends[1..], next, to, x);
      i := i + 1;
    }
  }

  /** Lost acknowledgements lose no rows: whatever was retried in smaller chunks, and however many of
      those retries the backend answered as duplicates, every row passed over is in an enqueued batch. */
  lemma LostAcksLoseNoRows<T(!new)>(env: Env<T>, list: seq<T>, k: nat, offset: nat, size: nat, x: nat)
    returns (j: nat)
    requires size > 0 && env.minSize > 0 && PagesOf(env.page, list)
    requires offset <= x < Walk(env, k, offset, size).offset
    ensures var sends := Walk(env, k, offset, size).sends;
            && IsEnqueued(sends, j)
            && Covers(sends[j].batch, x)
            && x < |list| && sends[j].batch.rows[x - sends[j].batch.offset] == list[x]
  {
    var sends, to := Walk(env, k, offset, size).sends, Walk(env, k, offset, size).offset;
    assert Tiles(sends, offset, to) by { WalkTiles(env, k, offset, size); }
    var i := AckedPageAt(sends, offset, to, x);
    assert sends[i].delivered by { AckedIsDelivered(env, k, offset, size, sends[i]); }
    j := FirstDelivered(sends, i);
    var a, b := sends[i].batch, sends[j].batch;
    assert b.offset == a.offset && b.size >= a.size by { RetriedPageIsPrefix(env, list, k, offset, size, i, j); }
    assert a.rows == Slice(list, a.offset, a.size) by { SendRows(env, list, k, offset, size, sends[i]); }
    assert b.rows == Slice(list, b.offset, b.size) by { SendRows(env, list, k, offset, size, sends[j]); }
    LongerSliceCovers(list, a.offset, a.size, b.size, x);
  }

  lemma AckedIsDelivered<T>(env: Env<T>, k: nat, offset: nat, size: nat, s: Sent<T>)
    requires size > 0 && env.minSize > 0 && s in Walk(env, k, offset, size).sends && s.acked
    ensures s.delivered
  {
    WalkShapes(env, k, offset, size);
  }

  lemma SendRows<T(!new)>(env: Env<T>, list: seq<T>, k: nat, offset: nat, size: nat, s: Sent<T>)
    requires size > 0 && env.minSize > 0 && PagesOf(env.page, list) && s in Walk(env, k, offset, size).sends
    ensures s.batch.rows == Slice(list, s.batch.offset, s.batch.size)
  {
    SendShape(env, k, offset, size, s);
  }

  lemma RetriedPageIsPrefix<T(!new)>(env: Env<T>, list: seq<T>, k: nat, offset: nat, size: nat, i: nat, j: nat)
    requires size > 0 && env.minSize > 0 && PagesOf(env.page, list)
    requires j <= i < |Walk(env, k, offset, size).sends|
    requires var sends := Walk(env, k, offset, size).sends;
             sends[i].batch.index == sends[j].batch.index
    ensures var sends := Walk(env, k, offset, size).sends;
            sends[j].batch.offset == sends[i].batch.offset && sends[j].batch.size >= sends[i].batch.size
  {
    BatchIndicesIncrease(env, list, k, offset, size);
  }

  lemma LongerSliceCovers<T>(list: seq<T>, offset: nat, n: nat, m: nat, x: nat)
    requires n <= m && offset <= x < offset + |Slice(list, offset, n)|
    ensures x < offset + |Slice(list, offset, m)| && x < |list| && Slice(list, offset, m)[x - offset] == list[x]
  {
  }

  /** A run that ends at the row count, or on an empty page, has passed over the whole list as long as
      the count was not too small. */
  lemma CompletedRunPassesEverything<T(!new)>(env: Env<T>, list: seq<T>, k: nat, offset: nat, size: nat)
    requires size > 0 && env.minSize > 0 && PagesOf(env.page, list) && |list| <= env.count
    ensures var w := Walk(env, k, offset, size);
            w.exit == Finished || w.exit == EmptyPage ==> |list| <= w.offset
  {
    WalkShapes(env, k, offset, size);
  }

  // ---------------------------------------------------------------------------------------------
  // The flag of the final batch
  // ---------------------------------------------------------------------------------------------

  /** The flag is never premature, aligned or not: a flagged page reaches the last row. */
  lemma FlagNeverPremature<T(!new)>(env: Env<T>, list: seq<T>, k: nat, offset: nat, size: nat, s: Sent<T>)
    requires size > 0 && env.minSize > 0 && PagesOf(env.page, list) && env.count == |list|
    requires s in Walk(env, k, offset, size).sends && Flagged(s.batch)
    ensures s.batch.offset + |s.batch.rows| == |list|
  {
    SendShape(env, k, offset, size, s);
    FlaggedChunkReachesEnd(env.count, s.batch.offset, s.batch.size);
  }

  /** The last attempt is acknowledged and ends at row `count`, and no earlier acknowledged batch is flagged. */
  ghost predicate EndsAtRow<T>(sends: seq<Sent<T>>, count: nat) {
    && |sends| > 0
    && sends[|sends| - 1].acked
    && sends[|sends| - 1].batch.offset + |sends[|sends| - 1].batch.rows| == count
    && (forall i :: 0 <= i < |sends| - 1 && sends[i].acked ==> !Flagged(sends[i].batch))
  }

  lemma PrependKeepsEnd<T>(sent: Sent<T>, rest: seq<Sent<T>>, count: nat)
    requires EndsAtRow(rest, count) && (sent.acked ==> !Flagged(sent.batch))
    ensures EndsAtRow([sent] + rest, count)
  {
    var all := [sent] + rest;
    assert all[|all| - 1] == rest[|rest| - 1];
    assert forall i :: 0 < i < |all| ==> all[i] == rest[i - 1];
  }

  /** A turn after which rows are left did not acknowledge a flagged batch. */
  lemma EarlyTurnIsNotFlagged<T(!new)>(env: Env<T>, list: seq<T>, k: nat, offset: nat, size: nat)
    requires size > 0 && env.minSize > 0 && PagesOf(env.page, list) && env.count == |list|
    requires var turn := TakeTurn(env, env.weather(k), offset, size); turn.Go? && turn.offset < env.count
    ensures var sent := TakeTurn(env, env.weather(k), offset, size).sent; sent.acked ==> !Flagged(sent.batch)
  {
    var turn := TakeTurn(env, env.weather(k), offset, size);
    NextFloor(env, list, k, offset, size);
    if Flagged(turn.sent.batch) {
      FlaggedChunkReachesEnd(env.count, offset, size);
      assert turn.sent.batch.rows == Slice(list, offset, size);
    }
  }

  /** In a finished run the last attempt is acknowledged and brings in the last row, and no earlier
      acknowledged batch is flagged. */
  lemma {:induction false} FinishedRunEndsAtLastRow<T(!new)>(env: Env<T>, list: seq<T>, k: nat, offset: nat, size: nat)
    requires size > 0 && env.minSize > 0 && PagesOf(env.page, list) && env.count == |list|
    requires offset < env.count && Walk(env, k, offset, size).exit == Finished
    ensures EndsAtRow(Walk(env, k, offset, size).sends, |list|)
    decreases env.count - offset, size
  {
    var turn := TakeTurn(env, env.weather(k), offset, size);
    var sent, next := turn.sent, turn.offset;
    var rest := Walk(env, k + 1, next, turn.size).sends;
    NextFloor(env, list, k, offset, size);
    if next < env.count {
      FinishedRunEndsAtLastRow(env, list, k + 1, next, turn.size);
      EarlyTurnIsNotFlagged(env, list, k, offset, size);
      PrependKeepsEnd(sent, rest, |list|);
    } else {
      assert rest == [] && [sent] + rest == [sent];
    }
  }

  /** A page is flagged exactly when the chunk that its first row falls into, counting chunks of its size from
      row 0, also holds the last row. */
  lemma BatchFlaggedIff<T>(page: Pager<T>, count: nat, b: Batch<T>)
    requires b.size > 0 && b == MakeBatch(page, count, b.offset, b.size) && b.offset < count
    ensures Flagged(b) <==> InFinalChunk(count, b.offset, b.size)
  {
    FlagMeaning(count, b.offset, b.size);
  }

  predicate Aligned<T>(b: Batch<T>) {
    b.size > 0 && b.offset % b.size == 0
  }

  /** With offsets that are multiples of the chunk size, exactly one acknowledged batch is flagged:
      the final one. */
  lemma AlignedRunFlagsItsFinalBatch<T(!new)>(env: Env<T>, list: seq<T>, k: nat, offset: nat, size: nat)
    requires size > 0 && env.minSize > 0 && PagesOf(env.page, list) && env.count == |list|
    requires offset < env.count && Walk(env, k, offset, size).exit == Finished
    requires forall s <- Walk(env, k, offset, size).sends :: Aligned(s.batch)
    ensures var sends := Walk(env, k, offset, size).sends;
            forall i :: 0 <= i < |sends| && sends[i].acked ==> (Flagged(sends[i].batch) <==> i == |sends| - 1)
  {
    FinishedRunEndsAtLastRow(env, list, k, offset, size);
    var sends := Walk(env, k, offset, size).sends;
    var last := sends[|sends| - 1];
    assert Flagged(last.batch) by {
      assert last in sends;
      SendShape(env, k, offset, size, last);
      AlignedBatchIsFlagged(env.page, list, last.batch);
    }
  }

  lemma AlignedBatchIsFlagged<T(!new)>(page: Pager<T>, list: seq<T>, b: Batch<T>)
    requires PagesOf(page, list) && Aligned(b) && b == MakeBatch(page, |list|, b.offset, b.size)
    requires b.offset < |list| && b.offset + |b.rows| == |list|
    ensures Flagged(b)
  {
    assert b.rows == Slice(list, b.offset, b.size);
    AlignedChunkIsFlagged(|list|, b.offset, b.size);
  }

  /** Shrinking a chunk of this size meets no odd size and no jump to the minimum; a size at or below the
      minimum never shrinks. */
  predicate Halvable(size: nat, minSize: nat) {
    size <= minSize || (minSize <= size / 2 && size % 2 == 0 && Halvable(size / 2, minSize))
  }

  lemma HalfDivides(offset: nat, half: nat, q: nat)
    requires half > 0 && offset == q * (2 * half)
    ensures offset % half == 0
  {
    assert offset == (2 * q) * half;
    MultipleOf(2 * q, half);
  }

  lemma {:induction false} MultipleOf(q: nat, d: nat)
    requires d > 0
    ensures (q * d) % d == 0
  {
    QuotientFromBounds(q * d, d, q);
  }

  lemma NextPageStaysAligned(offset: nat, size: nat)
    requires size > 0 && offset % size == 0
    ensures (offset + size) % size == 0
    ensures size % 2 == 0 ==> offset % (size / 2) == 0
  {
    var q := offset / size;
    NextMultiple(q, size);
    MultipleOf(q + 1, size);
    if size % 2 == 0 {
      HalfDivides(offset, size / 2, q);
    }
  }

  /** Alignment can be read off the settings: from an aligned start, a chunk size that never shrinks or is
      halved evenly down to the minimum keeps every attempt of the run aligned. */
  lemma {:induction false} HalvableSizesStayAligned<T(!new)>(env: Env<T>, list: seq<T>, k: nat, offset: nat, size: nat)
    requires size > 0 && env.minSize > 0 && PagesOf(env.page, list)
    requires offset % size == 0 && Halvable(size, env.minSize)
    ensures forall s <- Walk(env, k, offset, size).sends :: Aligned(s.batch)
    decreases Max(0, env.count - offset), size
  {
    match TakeTurn(env, env.weather(k), offset, size)
    case Stop(_) =>
    case Go(sent, next, size') =>
      NextFloor(env, list, k, offset, size);
      NextPageStaysAligned(offset, size);
      if sent.acked && |sent.batch.rows| < size {
        EndOfList(env, list, k + 1, next, size);
      } else {
        HalvableSizesStayAligned(env, list, k + 1, next, size');
      }
  }

  /** Without alignment the flag can be missing altogether: rows 30 to 69 in chunks of 50. */
  lemma UnalignedRunCanLackTheFlag<T>(list: seq<T>) returns (env: Env<T>)
    requires |list| == 70
    ensures env.minSize > 0 && env.count == 70
    ensures var w := Walk(env, 0, 30, 50);
            w.exit == Finished && w.offset == 70 && forall s <- w.sends :: s.acked && !Flagged(s.batch)
  {
    env := Env(_ => Weather(false, true, Acked, false), (o, n) => Slice(list, o, n), 70, 50);
    assert |env.page(30, 50)| == 40;
    assert Walk(env, 1, 70, 50) == Walked([], 70, Finished);
  }
}
