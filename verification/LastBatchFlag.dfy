/** Which settings guarantee that a finished run ends with a batch flagged last. */
module LastBatchFlag {
  import opened Common
  import opened Paging
  import opened PagingProperties

  /** A run over a list that the row count describes. */
  function OverList<T>(weather: nat -> Weather, list: seq<T>, minSize: nat): Env<T> {
    Env(weather, (offset: nat, n: nat) => Slice(list, offset, n), |list|, minSize)
  }

  ghost predicate FinalBatchFlagged<T(!new)>(weather: nat -> Weather, list: seq<T>, size: nat, minSize: nat)
    requires size > 0 && minSize > 0
  {
    var w := Walk(OverList(weather, list, minSize), 0, 0, size);
    |list| > 0 && w.exit == Finished ==> |w.sends| > 0 && Flagged(w.sends[|w.sends| - 1].batch)
  }

  /** Whatever the list and whatever goes wrong, a finished run from row 0 flags its final batch. */
  ghost predicate AlwaysFlags<T(!new)>(size: nat, minSize: nat)
    requires size > 0 && minSize > 0
  {
    forall weather: nat -> Weather, list: seq<T> :: FinalBatchFlagged(weather, list, size, minSize)
  }

  lemma HalvableFlags<T(!new)>(weather: nat -> Weather, list: seq<T>, size: nat, minSize: nat)
    requires size > 0 && minSize > 0 && Halvable(size, minSize)
    ensures FinalBatchFlagged(weather, list, size, minSize)
  {
    var env := OverList(weather, list, minSize);
    var w := Walk(env, 0, 0, size);
    if |list| > 0 && w.exit == Finished {
      HalvableSizesStayAligned(env, list, 0, 0, size);
      FinishedRunEndsAtLastRow(env, list, 0, 0, size);
      AlignedRunFlagsItsFinalBatch(env, list, 0, 0, size);
    }
  }

  // ---------------------------------------------------------------------------------------------
  // A run without a flag for every other setting
  // ---------------------------------------------------------------------------------------------

  predicate ShrinksEvenly(size: nat, minSize: nat) {
    minSize <= size / 2 && size % 2 == 0
  }

  /** The first size on the way down whose next size does not divide it, and how many reductions lead there. */
  function FirstUneven(size: nat, minSize: nat): (nat, nat)
    requires minSize > 0 && !Halvable(size, minSize)
  {
    if ShrinksEvenly(size, minSize) then
      var (d, n) := FirstUneven(size / 2, minSize);
      (d, n + 1)
    else (size, 0)
  }

  lemma {:induction false} FirstUnevenMeaning(size: nat, minSize: nat)
    requires minSize >= 2 && !Halvable(size, minSize)
    ensures var (d, _) := FirstUneven(size, minSize);
            var h := Downshift(d, minSize);
            minSize <= h < d && d % h != 0
  {
    if ShrinksEvenly(size, minSize) {
      FirstUnevenMeaning(size / 2, minSize);
    } else if minSize <= size / 2 {
      RemainderOne(size / 2, size);
    } else {
      RemainderRest(minSize, size);
    }
  }

  lemma RemainderOne(h: nat, d: nat)
    requires h >= 2 && d == 2 * h + 1
    ensures d % h != 0
  {
    QuotientFromBounds(d, h, 2);
  }

  lemma RemainderRest(h: nat, d: nat)
    requires 0 < h < d < 2 * h
    ensures d % h != 0
  {
    QuotientFromBounds(d, h, 1);
  }

  /** Shrink `n` times, send a page, shrink once more, and send the rest. */
  function ShrinkTwice(n: nat): nat -> Weather {
    (k: nat) => Weather(false, true, if k < n || k == n + 1 then Nacked(false, true) else Acked, false)
  }

  /** From turn `k` on, at row 0, the run finishes and its last attempt is this batch. */
  ghost predicate EndsWith<T>(env: Env<T>, k: nat, size: nat, last: Batch<T>)
    requires size > 0 && env.minSize > 0
  {
    var w := Walk(env, k, 0, size);
    w.exit == Finished && |w.sends| > 0 && w.sends[|w.sends| - 1].batch == last
  }

  /** The page after the first uneven reduction. */
  function UnevenPage<T>(list: seq<T>, d: nat, n: nat, minSize: nat): Batch<T>
    requires minSize > 0
  {
    MakeBatch(OverList(ShrinkTwice(n), list, minSize).page, |list|, d, Downshift(d, minSize))
  }

  lemma AtSize<T(!new)>(list: seq<T>, d: nat, n: nat, minSize: nat)
    requires minSize > 0 && d > minSize && |list| == d + Downshift(d, minSize)
    ensures EndsWith(OverList(ShrinkTwice(n), list, minSize), n, d, UnevenPage(list, d, n, minSize))
  {
    var env, h := OverList(ShrinkTwice(n), list, minSize), Downshift(d, minSize);
    var b0, b1, b2 := MakeBatch(env.page, |list|, 0, d), MakeBatch(env.page, |list|, d, d),
        UnevenPage(list, d, n, minSize);
    assert Walk(env, n + 3, d + h, h) == Walked([], d + h, Finished);
    assert Walk(env, n + 2, d, h) == Walked([Sent(b2, true, true)], d + h, Finished);
    assert Walk(env, n + 1, d, d) == Walked([Sent(b1, false, false), Sent(b2, true, true)], d + h, Finished);
    assert Walk(env, n, 0, d) == Walked([Sent(b0, true, true), Sent(b1, false, false), Sent(b2, true, true)], d + h,
                                        Finished);
  }

  lemma ShrinkKeepsEnd<T(!new)>(list: seq<T>, size: nat, k: nat, n: nat, minSize: nat, last: Batch<T>)
    requires minSize > 0 && size > minSize && ShrinksEvenly(size, minSize) && |list| > 0 && k < n
    requires EndsWith(OverList(ShrinkTwice(n), list, minSize), k + 1, size / 2, last)
    ensures EndsWith(OverList(ShrinkTwice(n), list, minSize), k, size, last)
  {
    var env := OverList(ShrinkTwice(n), list, minSize);
    var sent := Sent(MakeBatch(env.page, |list|, 0, size), false, false);
    assert TakeTurn(env, env.weather(k), 0, size) == Go(sent, 0, size / 2);
  }

  lemma {:induction false} DownTo<T(!new)>(list: seq<T>, size: nat, k: nat, n: nat, minSize: nat)
    requires minSize >= 2 && !Halvable(size, minSize)
    requires FirstUneven(size, minSize).1 == n - k
    requires |list| == FirstUneven(size, minSize).0 + Downshift(FirstUneven(size, minSize).0, minSize)
    ensures EndsWith(OverList(ShrinkTwice(n), list, minSize), k, size,
                     UnevenPage(list, FirstUneven(size, minSize).0, n, minSize))
  {
    if ShrinksEvenly(size, minSize) {
      DownTo(list, size / 2, k + 1, n, minSize);
      ShrinkKeepsEnd(list, size, k, n, minSize, UnevenPage(list, FirstUneven(size, minSize).0, n, minSize));
    } else {
      AtSize(list, size, k, minSize);
    }
  }

  lemma UnevenPageIsNotFinal(d: nat, h: nat)
    requires 0 < h && d % h != 0
    ensures !InFinalChunk(d + h, d, h)
  {
    var q := d / h;
    NextMultiple(q, h);
    assert q * h + d % h == d;
  }

  lemma UnevenRunLacksTheFlag<T(!new)>(size: nat, minSize: nat, row: T)
    requires minSize >= 2 && !Halvable(size, minSize)
    ensures !AlwaysFlags<T>(size, minSize)
  {
    var (d, n) := FirstUneven(size, minSize);
    var h := Downshift(d, minSize);
    FirstUnevenMeaning(size, minSize);
    var list := seq(d + h, _ => row);
    DownTo(list, size, 0, n, minSize);
    UnevenPageIsNotFinal(d, h);
    BatchFlaggedIff(OverList(ShrinkTwice(n), list, minSize).page, |list|, UnevenPage(list, d, n, minSize));
    assert !FinalBatchFlagged(ShrinkTwice(n), list, size, minSize);
  }

  /** The promise of the flag, read off the settings: for every minimum of at least 2, a finished run from
      row 0 always flags its final batch if and only if its chunk size never shrinks or is halved evenly all
      the way down. */
  lemma AlwaysFlagsIff<T(!new)>(size: nat, minSize: nat, row: T)
    requires size > 0 && minSize >= 2
    ensures AlwaysFlags<T>(size, minSize) <==> Halvable(size, minSize)
  {
    if Halvable(size, minSize) {
      forall weather: nat -> Weather, list: seq<T>
        ensures FinalBatchFlagged(weather, list, size, minSize)
      {
        HalvableFlags(weather, list, size, minSize);
      }
    } else {
      UnevenRunLacksTheFlag(size, minSize, row);
    }
  }

  // ---------------------------------------------------------------------------------------------
  // Resumed runs
  // ---------------------------------------------------------------------------------------------

  /** A run that leaves a checkpoint at the position where it stopped. */
  predicate LeavesCheckpoint(exit: Exit) {
    exit in {FetchFailed, SendFailed}
  }

  ghost predicate EndsFlagged<T>(w: Walked<T>) {
    w.exit == Finished ==> |w.sends| > 0 && Flagged(w.sends[|w.sends| - 1].batch)
  }

  /** Runs over a list, one for each weather: the first starts at `start`, every other one where the one before
      failed, all with the configured size.  Each that finishes flags its final batch. */
  ghost predicate ChainFlags<T(!new)>(weathers: seq<nat -> Weather>, list: seq<T>, start: nat, size: nat, minSize: nat)
    requires size > 0 && minSize > 0
    decreases |weathers|
  {
    weathers == [] ||
    var w := Walk(OverList(weathers[0], list, minSize), 0, start, size);
    && (start < |list| ==> EndsFlagged(w))
    && (LeavesCheckpoint(w.exit) ==> ChainFlags(weathers[1..], list, w.offset, size, minSize))
  }

  /** Whatever the list, however often a run fails and is resumed, and whatever goes wrong in each. */
  ghost predicate ChainsAlwaysFlag<T(!new)>(size: nat, minSize: nat)
    requires size > 0 && minSize > 0
  {
    forall weathers: seq<nat -> Weather>, list: seq<T> :: ChainFlags(weathers, list, 0, size, minSize)
  }

  /** A run whose chunks never shrink fails at a multiple of their size. */
  lemma {:induction false} FailsAligned<T(!new)>(env: Env<T>, list: seq<T>, k: nat, offset: nat, size: nat)
    requires 0 < size <= env.minSize && PagesOf(env.page, list) && env.count == |list| && offset % size == 0
    ensures var w := Walk(env, k, offset, size); LeavesCheckpoint(w.exit) ==> w.offset % size == 0
    decreases Max(0, env.count - offset), size
  {
    match TakeTurn(env, env.weather(k), offset, size)
    case Stop(_) =>
    case Go(sent, next, size') =>
      NextFloor(env, list, k, offset, size);
      if |sent.batch.rows| == size {
        NextPageStaysAligned(offset, size);
        FailsAligned(env, list, k + 1, next, size);
      } else {
        assert Walk(env, k + 1, next, size') == Walked([], next, Finished);
      }
  }

  lemma AlignedStartFlags<T(!new)>(weather: nat -> Weather, list: seq<T>, start: nat, size: nat, minSize: nat)
    requires 0 < size <= minSize && start % size == 0 && start < |list|
    ensures EndsFlagged(Walk(OverList(weather, list, minSize), 0, start, size))
  {
    var env := OverList(weather, list, minSize);
    var w := Walk(env, 0, start, size);
    if w.exit == Finished {
      HalvableSizesStayAligned(env, list, 0, start, size);
      FinishedRunEndsAtLastRow(env, list, 0, start, size);
      AlignedRunFlagsItsFinalBatch(env, list, 0, start, size);
    }
  }

  lemma {:induction false} SmallSizesFlag<T(!new)>(weathers: seq<nat -> Weather>, list: seq<T>, start: nat, size: nat,
                                                   minSize: nat)
    requires 0 < size <= minSize && start % size == 0
    ensures ChainFlags(weathers, list, start, size, minSize)
    decreases |weathers|
  {
    if weathers != [] {
      var env := OverList(weathers[0], list, minSize);
      FailsAligned(env, list, 0, start, size);
      if start < |list| {
        AlignedStartFlags(weathers[0], list, start, size, minSize);
      }
      if LeavesCheckpoint(Walk(env, 0, start, size).exit) {
        SmallSizesFlag(weathers[1..], list, Walk(env, 0, start, size).offset, size, minSize);
      }
    }
  }

  /** The first page is too large, its first part is acknowledged, and the next fetch fails. */
  const SHRINK_AND_FAIL: nat -> Weather :=
    (k: nat) => Weather(false, k < 2, if k == 0 then Nacked(false, true) else Acked, false)

  const ALL_WELL: nat -> Weather := (k: nat) => Weather(false, true, Acked, false)

  lemma FailsAfterShrinking<T>(list: seq<T>, size: nat, minSize: nat)
    requires 0 < minSize < size && |list| == size + 1
    ensures var w := Walk(OverList(SHRINK_AND_FAIL, list, minSize), 0, 0, size);
            w.exit == FetchFailed && w.offset == Downshift(size, minSize)
  {
    var env, h := OverList(SHRINK_AND_FAIL, list, minSize), Downshift(size, minSize);
    var b0, b1 := MakeBatch(env.page, |list|, 0, size), MakeBatch(env.page, |list|, 0, h);
    assert |b1.rows| == h;
    assert Walk(env, 2, h, h) == Walked([], h, FetchFailed);
    assert Walk(env, 1, 0, h) == Walked([Sent(b1, true, true)], h, FetchFailed);
    assert Walk(env, 0, 0, size) == Walked([Sent(b0, false, false), Sent(b1, true, true)], h, FetchFailed);
  }

  lemma ResumedPageIsNotFlagged<T>(list: seq<T>, size: nat, minSize: nat)
    requires 0 < minSize < size && |list| == size + 1
    ensures !EndsFlagged(Walk(OverList(ALL_WELL, list, minSize), 0, Downshift(size, minSize), size))
  {
    var env, h := OverList(ALL_WELL, list, minSize), Downshift(size, minSize);
    var b := MakeBatch(env.page, |list|, h, size);
    assert Walk(env, 1, |list|, size) == Walked([], |list|, Finished);
    assert Walk(env, 0, h, size) == Walked([Sent(b, true, true)], |list|, Finished);
    QuotientFromBounds(h, size, 0);
    QuotientFromBounds(|list| + size - 1, size, 2);
  }

  /** Once resumed runs are counted in, exactly the settings whose chunks never shrink keep the promise: a run
      that failed after a reduction is resumed with the configured size, at a position that need not be a
      multiple of it. */
  lemma ChainsAlwaysFlagIff<T(!new)>(size: nat, minSize: nat, row: T)
    requires size > 0 && minSize > 0
    ensures ChainsAlwaysFlag<T>(size, minSize) <==> size <= minSize
  {
    if size <= minSize {
      forall weathers: seq<nat -> Weather>, list: seq<T>
        ensures ChainFlags(weathers, list, 0, size, minSize)
      {
        SmallSizesFlag(weathers, list, 0, size, minSize);
      }
    } else {
      var list := seq(size + 1, _ => row);
      FailsAfterShrinking(list, size, minSize);
      ResumedPageIsNotFlagged(list, size, minSize);
      var weathers := [SHRINK_AND_FAIL, ALL_WELL];
      assert weathers[1..][0] == ALL_WELL;
      assert !ChainFlags(weathers[1..], list, Downshift(size, minSize), size, minSize);
      assert !ChainFlags(weathers, list, 0, size, minSize);
    }
  }
}
