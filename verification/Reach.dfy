/** How far into its list a run has brought rows to the backend. */
module Reach {
  import opened Paging
  import opened PagingProperties

  ghost predicate NoLostAck<T>(sends: seq<Sent<T>>) {
    forall s <- sends :: s.delivered ==> s.acked
  }

  /** Row number `i` of the list is in some enqueued batch. */
  ghost predicate Reached<T>(sends: seq<Sent<T>>, i: nat) {
    exists j: nat :: IsEnqueued(sends, j) && Covers(sends[j].batch, i)
  }

  function EndOf<T>(b: Batch<T>): nat {
    b.offset + |b.rows|
  }

  /** The end of the furthest delivered page, or where the run started. */
  function Furthest<T>(sends: seq<Sent<T>>, from: nat): nat {
    if sends == [] then from
    else
      var rest := Furthest(sends[1..], from);
      if sends[0].delivered && rest < EndOf(sends[0].batch) then EndOf(sends[0].batch) else rest
  }

  lemma {:induction false} FurthestIsMaximum<T>(sends: seq<Sent<T>>, from: nat)
    ensures from <= Furthest(sends, from)
    ensures forall i :: 0 <= i < |sends| && sends[i].delivered ==> EndOf(sends[i].batch) <= Furthest(sends, from)
    ensures Furthest(sends, from) == from
            || exists i :: 0 <= i < |sends| && sends[i].delivered && EndOf(sends[i].batch) == Furthest(sends, from)
  {
    if sends != [] {
      var rest := sends[1..];
      FurthestIsMaximum(rest, from);
      assert forall i :: 0 <= i < |rest| ==> sends[i + 1] == rest[i];
    }
  }

  /** Attempts are made at positions between the start of a run and where it stopped. */
  lemma {:induction false} AttemptOffsets<T>(sends: seq<Sent<T>>, from: nat, to: nat)
    requires Tiles(sends, from, to)
    ensures from <= to
    ensures forall i :: 0 <= i < |sends| ==> from <= sends[i].batch.offset <= to
    ensures forall i :: 0 <= i < |sends| && sends[i].acked ==> EndOf(sends[i].batch) <= to
  {
    if sends != [] {
      var rest := sends[1..];
      AttemptOffsets(rest, if sends[0].acked then from + |sends[0].batch.rows| else from, to);
      assert forall i :: 0 <= i < |rest| ==> sends[i + 1] == rest[i];
    }
  }

  /** A delivered page that is not enqueued repeats the first rows of one that is. */
  lemma DeliveredRowIsReached<T(!new)>(env: Env<T>, list: seq<T>, k: nat, offset: nat, size: nat, j: nat, x: nat)
    requires size > 0 && env.minSize > 0 && PagesOf(env.page, list)
    requires var sends := Walk(env, k, offset, size).sends;
             j < |sends| && sends[j].delivered && Covers(sends[j].batch, x)
    ensures Reached(Walk(env, k, offset, size).sends, x)
  {
    var sends := Walk(env, k, offset, size).sends;
    var f := FirstDelivered(sends, j);
    var a, b := sends[j].batch, sends[f].batch;
    assert b.offset == a.offset && b.size >= a.size by { RetriedPageIsPrefix(env, list, k, offset, size, j, f); }
    assert a.rows == Slice(list, a.offset, a.size) by { SendRows(env, list, k, offset, size, sends[j]); }
    assert b.rows == Slice(list, b.offset, b.size) by { SendRows(env, list, k, offset, size, sends[f]); }
    LongerSliceCovers(list, a.offset, a.size, b.size, x);
  }

  /** The rows that a run brings to the backend are exactly those from its start to the end of its furthest
      delivered page, acknowledged or not. */
  lemma ReachedIff<T(!new)>(env: Env<T>, list: seq<T>, k: nat, offset: nat, size: nat, x: nat)
    requires size > 0 && env.minSize > 0 && PagesOf(env.page, list)
    ensures var sends := Walk(env, k, offset, size).sends;
            Reached(sends, x) <==> offset <= x < Furthest(sends, offset)
  {
    var sends, to := Walk(env, k, offset, size).sends, Walk(env, k, offset, size).offset;
    WalkTiles(env, k, offset, size);
    AttemptOffsets(sends, offset, to);
    FurthestIsMaximum(sends, offset);
    if offset <= x < Furthest(sends, offset) {
      var j :| 0 <= j < |sends| && sends[j].delivered && EndOf(sends[j].batch) == Furthest(sends, offset);
      if x < sends[j].batch.offset {
        var f := LostAcksLoseNoRows(env, list, k, offset, size, x);
      } else {
        DeliveredRowIsReached(env, list, k, offset, size, j, x);
      }
    }
  }

  lemma PassedIsReached<T(!new)>(env: Env<T>, list: seq<T>, k: nat, offset: nat, size: nat, x: nat)
    requires size > 0 && env.minSize > 0 && PagesOf(env.page, list)
    requires offset <= x < Walk(env, k, offset, size).offset
    ensures x < Furthest(Walk(env, k, offset, size).sends, offset)
  {
    var j := LostAcksLoseNoRows(env, list, k, offset, size, x);
    assert Reached(Walk(env, k, offset, size).sends, x);
    ReachedIff(env, list, k, offset, size, x);
  }

  /** A run that stopped nowhere but at the end of its list has reached all of it. */
  lemma CompletedRunReachesEverything<T(!new)>(env: Env<T>, list: seq<T>, k: nat, offset: nat, size: nat)
    requires size > 0 && env.minSize > 0 && PagesOf(env.page, list) && |list| <= env.count
    requires Walk(env, k, offset, size).exit in {Finished, EmptyPage}
    ensures offset < |list| ==> |list| <= Furthest(Walk(env, k, offset, size).sends, offset)
  {
    var w := Walk(env, k, offset, size);
    CompletedRunPassesEverything(env, list, k, offset, size);
    if offset < |list| {
      PassedIsReached(env, list, k, offset, size, |list| - 1);
    }
  }
}
