/** When the batches that the backend enqueues carry every row of the list exactly once: lost
    acknowledgements lose no rows, but they can bring rows in twice. */
module ExactDelivery {
  import opened Sequences
  import opened Paging
  import opened PagingProperties
  import opened Reach

  /** The rows of all enqueued batches from attempt `k` on, in order. */
  ghost function EnqueuedFrom<T>(sends: seq<Sent<T>>, k: nat): seq<T>
    requires k <= |sends|
    decreases |sends| - k
  {
    if k == |sends| then []
    else EnqueuedAt(sends, k) + EnqueuedFrom(sends, k + 1)
  }

  ghost function EnqueuedAt<T>(sends: seq<Sent<T>>, k: nat): seq<T>
    requires k < |sends|
  {
    if IsEnqueued(sends, k) then sends[k].batch.rows else []
  }

  /** What is known of the attempts of an aligned run over a list. */
  ghost predicate Regular<T(!new)>(sends: seq<Sent<T>>, list: seq<T>) {
    && IndexOrder(sends)
    && forall i :: 0 <= i < |sends| ==>
         && Aligned(sends[i].batch)
         && sends[i].batch.index == sends[i].batch.offset / sends[i].batch.size
         && sends[i].batch.rows == Slice(list, sends[i].batch.offset, sends[i].batch.size)
         && sends[i].batch.rows != []
         && (sends[i].acked ==> sends[i].delivered)
  }

  /** Only row 0 has the same number in chunks of two sizes. */
  lemma SameNumberOnlyAtRowZero(offset: nat, large: nat, small: nat)
    requires 0 < small < large && offset % large == 0 && offset % small == 0 && offset / large == offset / small
    ensures offset == 0
  {
    var q := offset / large;
    assert q * large == offset == q * small;
    if q > 0 {
      StrictScale(q, small, large);
    }
  }

  lemma StrictScale(q: nat, a: nat, b: nat)
    requires q > 0 && a < b
    ensures q * a < q * b
  {
    ScaleMonotone(q, a + 1, b);
    assert q * (a + 1) == q * a + q;
  }

  /** Past row 0 no delivered batch is answered as a duplicate. */
  lemma DeliveredIsEnqueued<T(!new)>(sends: seq<Sent<T>>, list: seq<T>, i: nat)
    requires Regular(sends, list) && i < |sends| && sends[i].batch.offset > 0
    ensures IsEnqueued(sends, i) <==> sends[i].delivered
  {
    forall j | 0 <= j < i && sends[j].batch.index == sends[i].batch.index
      ensures false
    {
      SameNumberOnlyAtRowZero(sends[i].batch.offset, sends[j].batch.size, sends[i].batch.size);
    }
  }

  ghost predicate NoneLost<T>(sends: seq<Sent<T>>, k: nat) {
    forall i :: k <= i < |sends| ==> (sends[i].delivered ==> sends[i].acked)
  }

  ghost function NextFrom<T>(s: Sent<T>, from: nat): nat {
    if s.acked then from + |s.batch.rows| else from
  }

  /** One attempt past row 0. */
  lemma OneAttempt<T(!new)>(sends: seq<Sent<T>>, list: seq<T>, k: nat, from: nat, to: nat)
    requires Regular(sends, list) && k < |sends| && from > 0 && Tiles(sends[k..], from, to) && from <= |list|
    ensures var s, next := sends[k], NextFrom(sends[k], from);
            && from <= next <= |list| && Tiles(sends[k + 1..], next, to)
            && EnqueuedAt(sends, k) == (if s.delivered then s.batch.rows else [])
            && (s.acked ==> s.delivered && s.batch.rows == list[from..next])
            && |s.batch.rows| > 0
            && (NoneLost(sends, k) <==> (s.delivered ==> s.acked) && NoneLost(sends, k + 1))
  {
    assert sends[k..][0] == sends[k] && sends[k..][1..] == sends[k + 1..];
    DeliveredIsEnqueued(sends, list, k);
  }

  /** Past row 0 the enqueued rows are the rows passed over, and those of every lost acknowledgement again. */
  lemma {:induction false} CountPastZero<T(!new)>(sends: seq<Sent<T>>, list: seq<T>, k: nat, from: nat, to: nat)
    requires Regular(sends, list) && k <= |sends| && from > 0 && Tiles(sends[k..], from, to) && from <= |list|
    ensures from <= to <= |list|
    ensures |EnqueuedFrom(sends, k)| >= to - from
    ensures |EnqueuedFrom(sends, k)| == to - from <==> NoneLost(sends, k)
    decreases |sends| - k
  {
    if k < |sends| {
      OneAttempt(sends, list, k, from, to);
      CountPastZero(sends, list, k + 1, NextFrom(sends[k], from), to);
    }
  }

  lemma {:induction false} RowsPastZero<T(!new)>(sends: seq<Sent<T>>, list: seq<T>, k: nat, from: nat, to: nat)
    requires Regular(sends, list) && k <= |sends| && from > 0 && Tiles(sends[k..], from, to) && from <= to <= |list|
    requires NoneLost(sends, k)
    ensures EnqueuedFrom(sends, k) == list[from..to]
    decreases |sends| - k
  {
    if k < |sends| {
      var next := NextFrom(sends[k], from);
      OneAttempt(sends, list, k, from, to);
      CountPastZero(sends, list, k + 1, next, to);
      RowsPastZero(sends, list, k + 1, next, to);
      SliceConcat(list, from, next, to);
    }
  }

  /** The attempts up to the first acknowledged one were all made at the start. */
  lemma {:induction false} FirstAcked<T>(sends: seq<Sent<T>>, from: nat, to: nat) returns (a: nat)
    requires Tiles(sends, from, to) && from < to
    ensures a < |sends| && sends[a].acked
    ensures forall i :: 0 <= i <= a ==> sends[i].batch.offset == from
    ensures forall i :: 0 <= i < a ==> !sends[i].acked
    ensures Tiles(sends[a + 1..], from + |sends[a].batch.rows|, to)
  {
    if sends[0].acked {
      a := 0;
    } else {
      var rest := sends[1..];
      var b := FirstAcked(rest, from, to);
      a := b + 1;
      assert forall i :: 0 < i <= a ==> sends[i] == rest[i - 1];
      assert rest[b + 1..] == sends[a + 1..];
    }
  }

  lemma {:induction false} FirstDeliveredUpTo<T>(sends: seq<Sent<T>>, a: nat) returns (f: nat)
    requires a < |sends| && sends[a].delivered
    ensures f <= a && sends[f].delivered && forall i :: 0 <= i < f ==> !sends[i].delivered
  {
    f := a;
    if a' :| 0 <= a' < a && sends[a'].delivered {
      f := FirstDeliveredUpTo(sends, a');
    }
  }

  /** Of attempts that share a number only the first delivered one is enqueued. */
  lemma OnlyFirstIsEnqueued<T>(sends: seq<Sent<T>>, f: nat, a: nat, k: nat)
    requires f <= a < |sends| && k <= a && sends[f].delivered
    requires forall i :: 0 <= i < f ==> !sends[i].delivered
    requires forall i :: 0 <= i <= a ==> sends[i].batch.index == sends[f].batch.index
    ensures IsEnqueued(sends, k) <==> k == f
  {
  }

  lemma {:induction false} SkipUnenqueued<T>(sends: seq<Sent<T>>, k: nat, m: nat)
    requires k <= m <= |sends| && forall i: nat :: k <= i < m ==> !IsEnqueued(sends, i)
    ensures EnqueuedFrom(sends, k) == EnqueuedFrom(sends, m)
    decreases m - k
  {
    if k < m {
      SkipUnenqueued(sends, k + 1, m);
      assert !IsEnqueued(sends, k);
    }
  }

  lemma RowsOfOneNumber<T>(sends: seq<Sent<T>>, f: nat, a: nat)
    requires f <= a < |sends| && sends[f].delivered
    requires forall i :: 0 <= i < f ==> !sends[i].delivered
    requires forall i :: 0 <= i <= a ==> sends[i].batch.index == sends[f].batch.index
    ensures EnqueuedFrom(sends, 0) == sends[f].batch.rows + EnqueuedFrom(sends, a + 1)
  {
    forall k: nat | k <= a
      ensures IsEnqueued(sends, k) <==> k == f
    {
      OnlyFirstIsEnqueued(sends, f, a, k);
    }
    SkipUnenqueued(sends, 0, f);
    SkipUnenqueued(sends, f + 1, a + 1);
  }

  lemma NoneLostIsNoLostAck<T>(sends: seq<Sent<T>>)
    ensures NoneLost(sends, 0) <==> NoLostAck(sends)
  {
    if NoneLost(sends, 0) {
      forall s | s in sends
        ensures s.delivered ==> s.acked
      {
        var i :| 0 <= i < |sends| && sends[i] == s;
      }
    }
  }

  lemma NothingPastTheEnd<T(!new)>(sends: seq<Sent<T>>, list: seq<T>, k: nat, to: nat)
    requires Regular(sends, list) && k <= |sends| && |list| <= to && Tiles(sends[k..], to, to)
    ensures k == |sends|
  {
  }

  lemma AlignedAtRowZero(offset: nat, size: nat, count: nat)
    requires size > 0 && offset % size == 0 && offset < count <= size
    ensures offset == 0
  {
    QuotientFromBounds(offset, size, 0);
  }

  /** Nothing was lost exactly when the first delivered page is the first acknowledged one, and nothing is lost
      after it. */
  lemma NothingLostIff<T>(sends: seq<Sent<T>>, f: nat, a: nat)
    requires f <= a < |sends| && sends[f].delivered && sends[a].acked
    requires forall i :: 0 <= i < f ==> !sends[i].delivered
    requires forall i :: 0 <= i < a ==> !sends[i].acked
    ensures NoLostAck(sends) <==> f == a && NoneLost(sends, a + 1)
  {
    NoneLostIsNoLostAck(sends);
    assert NoneLost(sends, 0) ==> NoneLost(sends, a + 1);
  }

  lemma AtRowZero<T(!new)>(sends: seq<Sent<T>>, list: seq<T>, a: nat)
    requires Regular(sends, list) && a < |sends| && forall i :: 0 <= i <= a ==> sends[i].batch.offset == 0
    ensures forall i :: 0 <= i <= a ==> sends[i].batch.index == 0
    ensures forall i :: 0 <= i < a ==> sends[a].batch.size < sends[i].batch.size
  {
  }

  /** The batches enqueued by a run: the first delivered page at row 0, and those past the first
      acknowledged page. */
  lemma Enqueued<T(!new)>(sends: seq<Sent<T>>, list: seq<T>) returns (a: nat, f: nat)
    requires Regular(sends, list) && |list| > 0 && Tiles(sends, 0, |list|)
    ensures f <= a < |sends| && sends[a].acked && sends[f].delivered
    ensures sends[a].batch.offset == 0 && sends[f].batch.offset == 0
    ensures Tiles(sends[a + 1..], |sends[a].batch.rows|, |list|)
    ensures EnqueuedFrom(sends, 0) == sends[f].batch.rows + EnqueuedFrom(sends, a + 1)
    ensures forall k: nat :: k <= a ==> (IsEnqueued(sends, k) <==> k == f)
    ensures f < a ==> sends[a].batch.size < sends[f].batch.size
    ensures NoLostAck(sends) <==> f == a && NoneLost(sends, a + 1)
  {
    a := FirstAcked(sends, 0, |list|);
    f := FirstDeliveredUpTo(sends, a);
    AtRowZero(sends, list, a);
    RowsOfOneNumber(sends, f, a);
    forall k: nat | k <= a
      ensures IsEnqueued(sends, k) <==> k == f
    {
      OnlyFirstIsEnqueued(sends, f, a, k);
    }
    NothingLostIff(sends, f, a);
  }

  ghost predicate Ended<T(!new)>(sends: seq<Sent<T>>, list: seq<T>) {
    && Regular(sends, list) && |list| > 0 && |sends| > 0
    && Tiles(sends, 0, |list|)
    && sends[|sends| - 1].acked
  }

  lemma ShortListIsOnce<T(!new)>(sends: seq<Sent<T>>, list: seq<T>)
    requires Ended(sends, list) && |list| <= sends[|sends| - 1].batch.size
    ensures EnqueuedFrom(sends, 0) == list
  {
    var a, f := Enqueued(sends, list);
    var kept, last := sends[f].batch, sends[|sends| - 1].batch;
    AlignedAtRowZero(last.offset, last.size, |list|);
    LastIsFirst(sends, list, a);
    assert kept.rows == list;
    assert EnqueuedFrom(sends, a + 1) == [];
    assert list + [] == list;
  }

  lemma NothingLostIsOnce<T(!new)>(sends: seq<Sent<T>>, list: seq<T>)
    requires Ended(sends, list) && NoLostAck(sends)
    ensures EnqueuedFrom(sends, 0) == list
  {
    var a, f := Enqueued(sends, list);
    var n := |sends[a].batch.rows|;
    CountPastZero(sends, list, a + 1, n, |list|);
    RowsPastZero(sends, list, a + 1, n, |list|);
    assert sends[a].batch.rows == list[..n];
    assert list[..n] + list[n..|list|] == list;
  }

  lemma LostIsTwice<T(!new)>(sends: seq<Sent<T>>, list: seq<T>)
    requires Ended(sends, list) && !NoLostAck(sends) && |list| > sends[|sends| - 1].batch.size
    ensures |EnqueuedFrom(sends, 0)| > |list|
  {
    var a, f := Enqueued(sends, list);
    CountPastZero(sends, list, a + 1, |sends[a].batch.rows|, |list|);
    LongerThanPage(sends, list, a);
    assert |sends[f].batch.rows| >= |sends[a].batch.rows|;
    assert f < a ==> |sends[f].batch.rows| > |sends[a].batch.rows|;
  }

  /** Every row is enqueued exactly once, in order, if and only if no acknowledgement was lost or the whole
      list fitted even into the last, smallest chunk. */
  lemma OnceIff<T(!new)>(sends: seq<Sent<T>>, list: seq<T>)
    requires Ended(sends, list)
    ensures EnqueuedFrom(sends, 0) == list <==> NoLostAck(sends) || |list| <= sends[|sends| - 1].batch.size
  {
    if NoLostAck(sends) {
      NothingLostIsOnce(sends, list);
    } else if |list| <= sends[|sends| - 1].batch.size {
      ShortListIsOnce(sends, list);
    } else {
      LostIsTwice(sends, list);
    }
  }

  /** A page at row 0 that is acknowledged first is the last attempt if the last attempt is at row 0. */
  lemma LastIsFirst<T(!new)>(sends: seq<Sent<T>>, list: seq<T>, a: nat)
    requires Regular(sends, list) && a < |sends| && sends[a].batch.offset == 0
    requires Tiles(sends[a + 1..], |sends[a].batch.rows|, |list|)
    requires sends[|sends| - 1].batch.offset == 0
    ensures a == |sends| - 1
  {
    OffsetsAtLeast(sends[a + 1..], |sends[a].batch.rows|, |list|);
  }

  lemma {:induction false} OffsetsAtLeast<T>(sends: seq<Sent<T>>, from: nat, to: nat)
    requires Tiles(sends, from, to)
    ensures forall i :: 0 <= i < |sends| ==> sends[i].batch.offset >= from
  {
    if sends != [] {
      OffsetsAtLeast(sends[1..], NextFrom(sends[0], from), to);
      assert forall i :: 0 < i < |sends| ==> sends[i] == sends[1..][i - 1];
    }
  }

  /** A first page that is not the last one is shorter than the list. */
  lemma LongerThanPage<T(!new)>(sends: seq<Sent<T>>, list: seq<T>, a: nat)
    requires Regular(sends, list) && a < |sends| && sends[a].batch.offset == 0 && |list| > 0
    requires Tiles(sends[a + 1..], |sends[a].batch.rows|, |list|)
    requires |list| > sends[|sends| - 1].batch.size
    ensures sends[a].batch.size < |list|
  {
    if sends[a].batch.size >= |list| {
      assert |sends[a].batch.rows| == |list|;
      NothingPastTheEnd(sends, list, a + 1, |list|);
    }
  }

  /** For a finished aligned run: the enqueued batches carry exactly the list if and only if no
      acknowledgement was lost, or the list is so short that it fitted into every chunk tried. */
  lemma ListIsEnqueuedOnceIff<T(!new)>(env: Env<T>, list: seq<T>, size: nat)
    requires size > 0 && env.minSize > 0 && PagesOf(env.page, list) && env.count == |list| && |list| > 0
    requires Walk(env, 0, 0, size).exit == Finished
    requires forall s <- Walk(env, 0, 0, size).sends :: Aligned(s.batch)
    ensures var sends := Walk(env, 0, 0, size).sends;
            && |sends| > 0
            && (EnqueuedFrom(sends, 0) == list <==> NoLostAck(sends) || |list| <= sends[|sends| - 1].batch.size)
  {
    var w := Walk(env, 0, 0, size);
    WalkIsRegular(env, list, 0, size);
    FinishedRunEndsAtLastRow(env, list, 0, 0, size);
    OnceIff(w.sends, list);
  }

  lemma WalkIsRegular<T(!new)>(env: Env<T>, list: seq<T>, from: nat, size: nat)
    requires size > 0 && env.minSize > 0 && PagesOf(env.page, list) && env.count == |list| && from < |list|
    requires Walk(env, 0, from, size).exit == Finished
    requires forall s <- Walk(env, 0, from, size).sends :: Aligned(s.batch)
    ensures Regular(Walk(env, 0, from, size).sends, list) && Tiles(Walk(env, 0, from, size).sends, from, |list|)
  {
    var w := Walk(env, 0, from, size);
    BatchIndicesIncrease(env, list, 0, from, size);
    WalkTiles(env, 0, from, size);
    WalkShapes(env, 0, from, size);
    forall i | 0 <= i < |w.sends|
      ensures w.sends[i].batch.rows == Slice(list, w.sends[i].batch.offset, w.sends[i].batch.size) != []
      ensures w.sends[i].batch.index == w.sends[i].batch.offset / w.sends[i].batch.size
    {
      SendRows(env, list, 0, from, size, w.sends[i]);
      SendShape(env, 0, from, size, w.sends[i]);
    }
    StopsAtTheEnd(w.sends, list, from, w.offset);
  }

  /** Acknowledged pages of a list never pass its end. */
  lemma {:induction false} StopsAtTheEnd<T>(sends: seq<Sent<T>>, list: seq<T>, from: nat, to: nat)
    requires Tiles(sends, from, to) && from <= |list| <= to
    requires forall i :: 0 <= i < |sends| ==>
               sends[i].batch.rows == Slice(list, sends[i].batch.offset, sends[i].batch.size)
    ensures to == |list|
  {
    if sends != [] {
      var next := if sends[0].acked then from + |sends[0].batch.rows| else from;
      assert forall i :: 0 <= i < |sends[1..]| ==> sends[1..][i] == sends[i + 1];
      StopsAtTheEnd(sends[1..], list, next, to);
    }
  }
}
