/** The paging loop of the sync client: batch numbering, the chunk-size reduction and the order in
    which pages reach the backend.  What the outside world answers in each turn of the loop is a
    parameter (`Weather`), so every statement here is about every possible behaviour of SQL Server,
    of the network and of the user's stop button. */
module Paging {
  import opened Common

  /** One `IngestBatch` together with the source position and chunk size it was built from. */
  datatype Batch<T> = Batch(index: nat, totalBatches: nat, offset: nat, size: nat, rows: seq<T>)

  /** One attempt to send a batch: `delivered` says that the backend enqueued it, `acked` that the
      client saw the success.  A delivered batch that was not acknowledged is a lost acknowledgement. */
  datatype Sent<T> = Sent(batch: Batch<T>, delivered: bool, acked: bool)

  datatype Reply =
    | Acked
    | Nacked(delivered: bool, retryable: bool)
    | Thrown(delivered: bool)

  /** One turn of the loop: is cancellation seen at the head, does the SQL fetch work, how does the
      send end, and is the pause after a good batch, if another is due, cut short? */
  datatype Weather = Weather(cancelled: bool, fetched: bool, reply: Reply, interrupted: bool)

  datatype Exit = Finished | HeadCancelled | EmptyPage | FetchFailed | SendFailed | Aborted

  datatype Walked<T> = Walked(sends: seq<Sent<T>>, offset: nat, exit: Exit) {
    function After(earlier: seq<Sent<T>>): Walked<T> {
      this.(sends := earlier + sends)
    }
  }

  type Pager<!T> = (nat, nat) -> seq<T>

  function Min(a: nat, b: nat): nat { if a < b then a else b }

  function Max(a: int, b: int): int { if a < b then b else a }

  /** `OFFSET o ROWS FETCH NEXT n ROWS ONLY` over an ordered list. */
  function Slice<T>(list: seq<T>, offset: nat, n: nat): seq<T> {
    if offset >= |list| then [] else list[offset..Min(offset + n, |list|)]
  }

  ghost predicate PagesOf<T(!new)>(page: Pager<T>, list: seq<T>) {
    forall offset: nat, n: nat :: page(offset, n) == Slice(list, offset, n)
  }

  function TotalBatches(count: nat, size: nat): nat
    requires size > 0
  {
    (count + size - 1) / size
  }

  function MakeBatch<T>(page: Pager<T>, count: nat, offset: nat, size: nat): Batch<T>
    requires size > 0
  {
    Batch(offset / size, TotalBatches(count, size), offset, size, page(offset, size))
  }

  function Downshift(size: nat, minSize: nat): nat {
    Max(minSize, size / 2)
  }

  /** What one run of the loop is given: the world's answers, the page query, the row count taken
      before the loop and the smallest chunk size of the module. */
  datatype Env<!T> = Env(weather: nat -> Weather, page: Pager<T>, count: nat, minSize: nat)

  /** One turn of the loop: it ends the run, or it sends a batch and goes on from a new position and
      chunk size. */
  datatype Turn<T> = Stop(walked: Walked<T>) | Go(sent: Sent<T>, offset: nat, size: nat)

  function TakeTurn<T>(env: Env<T>, now: Weather, offset: nat, size: nat): (turn: Turn<T>)
    requires size > 0 && env.minSize > 0
    ensures turn.Go? ==> turn.size > 0 && (turn.offset > offset || (turn.offset == offset && turn.size < size))
    ensures turn.Go? ==> offset < env.count
  {
    if offset >= env.count then Stop(Walked([], offset, Finished))
    else if now.cancelled then Stop(Walked([], offset, HeadCancelled))
    else if !now.fetched then Stop(Walked([], offset, FetchFailed))
    else
      var batch := MakeBatch(env.page, env.count, offset, size);
      if |batch.rows| == 0 then Stop(Walked([], offset, EmptyPage))
      else
        match now.reply
        case Acked =>
          var sent, next := Sent(batch, true, true), offset + |batch.rows|;
          if now.interrupted && next < env.count then Stop(Walked([sent], next, Aborted)) else Go(sent, next, size)
        case Nacked(delivered, retryable) =>
          var sent := Sent(batch, delivered, false);
          if retryable && size > env.minSize then Go(sent, offset, Downshift(size, env.minSize))
          else Stop(Walked([sent], offset, SendFailed))
        case Thrown(delivered) =>
          Stop(Walked([Sent(batch, delivered, false)], offset, Aborted))
  }

  /** The loop as a function: everything it sends from `offset` on, the offset where it stops, and why. */
  function Walk<T>(env: Env<T>, k: nat, offset: nat, size: nat): Walked<T>
    requires size > 0 && env.minSize > 0
    decreases Max(0, env.count - offset), size
  {
    match TakeTurn(env, env.weather(k), offset, size)
    case Stop(walked) => walked
    case Go(sent, next, size') => Walk(env, k + 1, next, size').After([sent])
  }

  // ---------------------------------------------------------------------------------------------
  // Batch numbering
  // ---------------------------------------------------------------------------------------------

  /** The backend's test for the final batch of a run. */
  predicate Flagged<T>(b: Batch<T>) {
    b.index == b.totalBatches - 1
  }

  lemma QuotientBounds(n: nat, d: nat)
    requires d > 0
    ensures (n / d) * d <= n < (n / d + 1) * d
  {
    assert n == (n / d) * d + n % d;
    NextMultiple(n / d, d);
  }

  lemma SmallerQuotient(p: nat, q: nat, d: nat)
    ensures p < q ==> (p + 1) * d <= q * d
  {
  }

  lemma ScaleMonotone(c: nat, a: nat, b: nat)
    requires a <= b
    ensures c * a <= c * b
  {
  }

  lemma UniqueQuotient(n: nat, d: nat, p: nat, q: nat)
    requires p * d <= n < (p + 1) * d && q * d <= n < (q + 1) * d
    ensures p == q
  {
    SmallerQuotient(p, q, d);
    SmallerQuotient(q, p, d);
  }

  lemma QuotientFromBounds(n: nat, d: nat, q: nat)
    requires d > 0 && q * d <= n < (q + 1) * d
    ensures n / d == q
  {
    var p := n / d;
    assert p * d <= n < (p + 1) * d by { QuotientBounds(n, d); }
    UniqueQuotient(n, d, p, q);
  }

  lemma OrderFromBounds(m: nat, n: nat, d: nat, e: nat, p: nat, q: nat)
    requires e <= d && m <= n && p * d <= m && n < (q + 1) * e
    ensures p <= q
  {
    SmallerQuotient(q, p, e);
    ScaleMonotone(p, e, d);
  }

  lemma QuotientMonotone(m: nat, n: nat, d: nat, e: nat)
    requires 0 < e <= d && m <= n
    ensures m / d <= n / e
  {
    var p, q := m / d, n / e;
    assert p * d <= m by { QuotientBounds(m, d); }
    assert n < (q + 1) * e by { QuotientBounds(n, e); }
    OrderFromBounds(m, n, d, e, p, q);
  }

  lemma QuotientOfNextPage(n: nat, d: nat)
    requires d > 0
    ensures (n + d) / d == n / d + 1
  {
    QuotientBounds(n, d);
    QuotientFromBounds(n + d, d, n / d + 1);
  }

  /** Counting chunks of this size from row 0, the chunk that `offset` falls into holds the last row. */
  predicate InFinalChunk(count: nat, offset: nat, size: nat) {
    size > 0 && count <= (offset / size + 1) * size
  }

  /** Which pages carry the flag: those that start in the final chunk of their size. */
  lemma FlagMeaning(count: nat, offset: nat, size: nat)
    requires size > 0 && offset < count
    ensures offset / size == TotalBatches(count, size) - 1 <==> InFinalChunk(count, offset, size)
  {
    var q, total := offset / size, TotalBatches(count, size);
    QuotientBounds(offset, size);
    QuotientBounds(count + size - 1, size);
    assert total * size <= count + size - 1 < (total + 1) * size;
    assert (q + 2) * size == (q + 1) * size + size;
    if count <= (q + 1) * size {
      QuotientFromBounds(count + size - 1, size, q + 1);
    }
  }

  lemma FlaggedChunkReachesEnd(count: nat, offset: nat, size: nat)
    requires size > 0 && offset < count && offset / size == TotalBatches(count, size) - 1
    ensures count <= offset + size
  {
    var q := offset / size;
    assert count <= (q + 1) * size by { FlagMeaning(count, offset, size); }
    assert q * size <= offset by { QuotientBounds(offset, size); }
    NextMultiple(q, size);
  }

  lemma AlignedChunkIsFlagged(count: nat, offset: nat, size: nat)
    requires size > 0 && offset < count <= offset + size && offset % size == 0
    ensures offset / size == TotalBatches(count, size) - 1
  {
    var q := offset / size;
    assert q * size == offset;
    NextMultiple(q, size);
    assert count <= (q + 1) * size;
    assert q == TotalBatches(count, size) - 1 by { FlagMeaning(count, offset, size); }
  }
}
