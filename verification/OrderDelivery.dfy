/** Orders from the source window to the table: client runs in any weather, failed and resumed, with lost
    acknowledgements, retries in smaller chunks and duplicates, have the effect of one upsert of the window. */
module OrderDelivery {
  import opened Paging
  import opened PagingProperties
  import opened Reach
  import opened Orders

  /** What the backend ingests: batches that the run enqueued, each at least once, in any order. */
  ghost predicate Ingests(batches: seq<seq<Order>>, sends: seq<Sent<Order>>) {
    && (forall b <- batches :: exists i: nat :: IsEnqueued(sends, i) && b == sends[i].batch.rows)
    && (forall i: nat :: IsEnqueued(sends, i) ==> sends[i].batch.rows in batches)
  }

  function RowsFrom(list: seq<Order>, start: nat): seq<Order> {
    if start <= |list| then list[start..] else []
  }

  lemma IngestedRowsAreWindowRows(env: Env<Order>, list: seq<Order>, start: nat, size: nat, batches: seq<seq<Order>>)
    requires size > 0 && env.minSize > 0 && PagesOf(env.page, list)
    requires Ingests(batches, Walk(env, 0, start, size).sends)
    ensures DrawnFrom(batches, RowsFrom(list, start))
  {
    var w := Walk(env, 0, start, size);
    WalkTiles(env, 0, start, size);
    AttemptOffsets(w.sends, start, w.offset);
    forall b, r | b in batches && r in b
      ensures r in RowsFrom(list, start)
    {
      var i: nat :| IsEnqueued(w.sends, i) && b == w.sends[i].batch.rows;
      SendRows(env, list, 0, start, size, w.sends[i]);
      SliceFrom(list, start, w.sends[i].batch.offset, w.sends[i].batch.size, r);
    }
  }

  lemma SliceFrom(list: seq<Order>, start: nat, offset: nat, n: nat, r: Order)
    requires start <= offset && r in Slice(list, offset, n)
    ensures r in RowsFrom(list, start)
  {
    var page := Slice(list, offset, n);
    var x :| 0 <= x < |page| && page[x] == r;
    assert list[start..][offset - start + x] == r;
  }

  lemma PassedRowIsDelivered(env: Env<Order>, list: seq<Order>, start: nat, size: nat, batches: seq<seq<Order>>, x: nat)
    requires size > 0 && env.minSize > 0 && PagesOf(env.page, list)
    requires start <= x < |list| && x < Walk(env, 0, start, size).offset
    requires Ingests(batches, Walk(env, 0, start, size).sends)
    ensures Delivers(batches, list[x])
  {
    var sends := Walk(env, 0, start, size).sends;
    var j := LostAcksLoseNoRows(env, list, 0, start, size, x);
    EnqueuedRowIsDelivered(sends, batches, j, x - sends[j].batch.offset);
  }

  lemma EnqueuedRowIsDelivered(sends: seq<Sent<Order>>, batches: seq<seq<Order>>, j: nat, at: nat)
    requires Ingests(batches, sends) && IsEnqueued(sends, j) && at < |sends[j].batch.rows|
    ensures Delivers(batches, sends[j].batch.rows[at])
  {
    assert sends[j].batch.rows in batches;
  }

  lemma EveryRowIsDelivered(env: Env<Order>, list: seq<Order>, start: nat, size: nat, batches: seq<seq<Order>>,
                            r: Order)
    requires size > 0 && env.minSize > 0 && PagesOf(env.page, list) && |list| <= Walk(env, 0, start, size).offset
    requires Ingests(batches, Walk(env, 0, start, size).sends) && r in RowsFrom(list, start)
    ensures Delivers(batches, r)
  {
    var rest := RowsFrom(list, start);
    var x :| 0 <= x < |rest| && rest[x] == r;
    PassedRowIsDelivered(env, list, start, size, batches, start + x);
  }

  lemma RestHasUniqueKeys(list: seq<Order>, start: nat)
    requires UniqueKeys(list)
    ensures UniqueKeys(RowsFrom(list, start))
  {
  }

  /** A finished orders run over a window with one row per order, started afresh or resumed at a checkpoint,
      has the effect of upserting the window from its start on once, although pages may have been enqueued
      twice, overlapping, or ingested in any order. */
  lemma FinishedRunUpsertsItsWindow(env: Env<Order>, list: seq<Order>, start: nat, size: nat, table: seq<Order>,
                                    batches: seq<seq<Order>>)
    requires size > 0 && env.minSize > 0 && PagesOf(env.page, list) && |list| <= env.count && UniqueKeys(list)
    requires Walk(env, 0, start, size).exit in {Finished, EmptyPage}
    requires Ingests(batches, Walk(env, 0, start, size).sends)
    ensures SameOrders(UpsertAll(table, batches), Upsert(table, RowsFrom(list, start)))
  {
    var rest := RowsFrom(list, start);
    CompletedRunPassesEverything(env, list, 0, start, size);
    IngestedRowsAreWindowRows(env, list, start, size, batches);
    forall r | r in rest
      ensures Delivers(batches, r)
    {
      EveryRowIsDelivered(env, list, start, size, batches, r);
    }
    RestHasUniqueKeys(list, start);
    FullDeliveryIsOneUpsert(table, rest, batches);
  }

  // ---------------------------------------------------------------------------------------------
  // Failed and resumed runs
  // ---------------------------------------------------------------------------------------------

  /** One of several runs over a window, and what the backend ingests of it. */
  datatype Part = Part(env: Env<Order>, size: nat, batches: seq<seq<Order>>)

  /** Each run resumes where the one before stopped. */
  ghost predicate Resumed(parts: seq<Part>, list: seq<Order>, start: nat)
    decreases |parts|
  {
    parts == [] ||
    var p := parts[0];
    && p.size > 0 && p.env.minSize > 0 && PagesOf(p.env.page, list)
    && Ingests(p.batches, Walk(p.env, 0, start, p.size).sends)
    && Resumed(parts[1..], list, Walk(p.env, 0, start, p.size).offset)
  }

  /** Where the last of them stopped. */
  ghost function Reaches(parts: seq<Part>, list: seq<Order>, start: nat): nat
    requires Resumed(parts, list, start)
    decreases |parts|
  {
    if parts == [] then start else Reaches(parts[1..], list, Walk(parts[0].env, 0, start, parts[0].size).offset)
  }

  function BatchesOf(parts: seq<Part>): seq<seq<Order>> {
    if parts == [] then [] else parts[0].batches + BatchesOf(parts[1..])
  }

  lemma DrawnFromEarlier(batches: seq<seq<Order>>, list: seq<Order>, start: nat)
    requires DrawnFrom(batches, RowsFrom(list, start))
    ensures DrawnFrom(batches, list)
  {
    forall b, r | b in batches && r in b
      ensures r in list
    {
      assert r in RowsFrom(list, start);
    }
  }

  lemma {:induction false} PartsDeliver(parts: seq<Part>, list: seq<Order>, start: nat)
    requires Resumed(parts, list, start)
    ensures DrawnFrom(BatchesOf(parts), list)
    ensures forall x :: start <= x < |list| && x < Reaches(parts, list, start) ==> Delivers(BatchesOf(parts), list[x])
    decreases |parts|
  {
    if parts != [] {
      var p, rest := parts[0], parts[1..];
      var to := Walk(p.env, 0, start, p.size).offset;
      PartsDeliver(rest, list, to);
      IngestedRowsAreWindowRows(p.env, list, start, p.size, p.batches);
      DrawnFromEarlier(p.batches, list, start);
      DeliversConcat(p.batches, BatchesOf(rest));
      forall x | start <= x < |list| && x < Reaches(parts, list, start)
        ensures Delivers(BatchesOf(parts), list[x])
      {
        if x < to {
          PassedRowIsDelivered(p.env, list, start, p.size, p.batches, x);
        }
      }
    }
  }

  /** However often a run over a window fails and is resumed at its checkpoint: once the last one has reached
      the end, all their batches, ingested in any order and any number of times, are one upsert of the
      window. */
  lemma ResumedRunsUpsertTheWindow(parts: seq<Part>, list: seq<Order>, table: seq<Order>, ingested: seq<seq<Order>>)
    requires Resumed(parts, list, 0) && Reaches(parts, list, 0) >= |list| && UniqueKeys(list)
    requires forall b :: b in ingested <==> b in BatchesOf(parts)
    ensures SameOrders(UpsertAll(table, ingested), Upsert(table, list))
  {
    PartsDeliver(parts, list, 0);
    forall r | r in list
      ensures Delivers(ingested, r)
    {
      var x :| 0 <= x < |list| && list[x] == r;
      assert Delivers(BatchesOf(parts), list[x]);
    }
    FullDeliveryIsOneUpsert(table, list, ingested);
  }

  /** An interrupted run followed by others over the same window: only the set of delivered rows counts. */
  lemma PartialRunsAddUp(list: seq<Order>, table: seq<Order>, first: seq<seq<Order>>, second: seq<seq<Order>>)
    requires UniqueKeys(list) && DrawnFrom(first, list) && DrawnFrom(second, list)
    requires forall r <- list :: Delivers(first, r) || Delivers(second, r)
    ensures SameOrders(UpsertAll(table, first + second), Upsert(table, list))
    ensures SameOrders(UpsertAll(table, second + first), Upsert(table, list))
  {
    DeliversConcat(first, second);
    DeliversConcat(second, first);
    FullDeliveryIsOneUpsert(table, list, first + second);
    FullDeliveryIsOneUpsert(table, list, second + first);
  }

  lemma DeliversConcat(a: seq<seq<Order>>, b: seq<seq<Order>>)
    ensures forall r :: Delivers(a + b, r) <==> Delivers(a, r) || Delivers(b, r)
  {
    forall r
      ensures Delivers(a + b, r) <==> Delivers(a, r) || Delivers(b, r)
    {
      if s :| s in a && r in s {
        assert s in a + b;
      }
      if s :| s in b && r in s {
        assert s in a + b;
      }
    }
  }
}
