/** The two ways in which a run can move the watermark past rows that were never accepted: when exactly
    it does, and histories in which a row is lost for good. */
module CoverageLimits {
  import opened Sequences
  import opened Paging
  import opened PagingProperties
  import opened Reach
  import opened Watermarks
  import opened SyncClient
  import opened Coverage

  // ---------------------------------------------------------------------------------------------
  // What a run brings in
  // ---------------------------------------------------------------------------------------------

  lemma ListingIsDistinct(src: Source, last: Time, end: Time)
    requires Distinct(src.rows)
    ensures Distinct(src.Listing(last, end))
  {
    var lo := WindowStart(src.m, src.settings, last);
    FilterDistinct(src.rows, (r: SourceRow) => lo <= r.time < end);
  }

  /** A row that a run brings in stands in its listing at a place the run reached. */
  lemma AcceptedRowsAreReached(src: Source, file: File, req: Request, r: SourceRow) returns (x: nat)
    requires r in AcceptedRows(src.WalkOf(file, req).sends)
    ensures var plan, sends := src.PlanOf(file, req), src.WalkOf(file, req).sends;
            var list := src.Listing(plan.last, plan.end);
            plan.start <= x < Furthest(sends, plan.start) && x < |list| && list[x] == r
  {
    var plan, sends := src.PlanOf(file, req), src.WalkOf(file, req).sends;
    var list, env, size := src.Listing(plan.last, plan.end), src.EnvFor(file, req),
        ConfiguredBatchSize(src.m, src.settings);
    var j :| 0 <= j < |sends| && IsEnqueued(sends, j) && r in sends[j].batch.rows;
    var b := sends[j].batch;
    FrozenPages(src, file, req);
    assert b.rows == Slice(list, b.offset, b.size) by { SendRows(env, list, 0, plan.start, size, sends[j]); }
    x := PlaceOf(list, sends, j, r);
    ReachedIff(env, list, 0, plan.start, size, x);
  }

  lemma PlaceOf(list: seq<SourceRow>, sends: seq<Sent<SourceRow>>, j: nat, r: SourceRow) returns (x: nat)
    requires IsEnqueued(sends, j) && r in sends[j].batch.rows
    requires sends[j].batch.rows == Slice(list, sends[j].batch.offset, sends[j].batch.size)
    ensures x < |list| && list[x] == r && Reached(sends, x)
  {
    var b := sends[j].batch;
    var i :| 0 <= i < |b.rows| && b.rows[i] == r;
    x := b.offset + i;
    assert Covers(b, x);
    LongerSliceCovers(list, b.offset, b.size, b.size, x);
  }

  /** In a table that lists every row once, a run brings in exactly the rows between its start and the end
      of its furthest delivered page. */
  lemma BroughtInIff(src: Source, file: File, req: Request, i: nat)
    requires Distinct(src.rows)
    requires i < |src.Listing(src.PlanOf(file, req).last, src.PlanOf(file, req).end)|
    ensures var plan, sends := src.PlanOf(file, req), src.WalkOf(file, req).sends;
            src.Listing(plan.last, plan.end)[i] in AcceptedRows(sends) <==>
            plan.start <= i < Furthest(sends, plan.start)
  {
    var plan, sends := src.PlanOf(file, req), src.WalkOf(file, req).sends;
    var list := src.Listing(plan.last, plan.end);
    ListingIsDistinct(src, plan.last, plan.end);
    if plan.start <= i < Furthest(sends, plan.start) {
      ReachedRowIsAccepted(src, file, req, i);
    }
    if list[i] in AcceptedRows(sends) {
      var x := AcceptedRowsAreReached(src, file, req, list[i]);
    }
  }

  /** What coverage up to a window end means for the rows of the listing. */
  lemma CoveredIffListed(src: Source, before: State, after: State, last: Time, end: Time)
    requires last >= FULL_SYNC_START && before.accepted <= after.accepted
    requires Covered(src, before, last) || last == FULL_SYNC_START
    ensures Covered(src, after, end) <==>
            (forall i :: 0 <= i < |src.Listing(last, end)| ==> src.Listing(last, end)[i] in after.accepted)
  {
    var list := src.Listing(last, end);
    if Covered(src, after, end) {
      CoveredListing(src, after, last, end, end);
    } else if forall i :: 0 <= i < |list| ==> list[i] in after.accepted {
      WholeListingCovers(src, before, after, last, end);
    }
  }

  // ---------------------------------------------------------------------------------------------
  // Cancellation at the head of the loop
  // ---------------------------------------------------------------------------------------------

  /** The run reports success and moves the stored watermark to its window end. */
  ghost predicate Advances(src: Source, file: File, req: Request) {
    var plan, w := src.PlanOf(file, req), src.WalkOf(file, req);
    && plan.count > 0 && w.exit !in {Aborted, FetchFailed, SendFailed} && w.offset > plan.start
    && req.disk.update && req.now >= FULL_SYNC_START
  }

  /** A run that advances the watermark covers everything before it if and only if the rows past its furthest
      delivered page had been accepted earlier.  Such rows exist only when cancellation was seen at the head
      of the loop; they are exactly the rows from its start on that the run did not bring in. */
  lemma AdvancingRunCoversIff(src: Source, st: State, req: Request)
    requires Inv(src, st) && Distinct(src.rows) && Advances(src, st.file, req)
    ensures var plan, w, st' := src.PlanOf(st.file, req), src.WalkOf(st.file, req), Step(src, st, Sync(req));
            var list, furthest := src.Listing(plan.last, plan.end), Furthest(w.sends, plan.start);
            && st'.file.Load().lastSyncTime == plan.end
            && (w.exit != HeadCancelled ==> |list| <= furthest)
            && (forall i :: plan.start <= i < |list| ==> (list[i] in AcceptedRows(w.sends) <==> i < furthest))
            && (Covered(src, st', plan.end) <==> forall i :: furthest <= i < |list| ==> list[i] in st.accepted)
  {
    var plan, w, st' := src.PlanOf(st.file, req), src.WalkOf(st.file, req), Step(src, st, Sync(req));
    var list, furthest := src.Listing(plan.last, plan.end), Furthest(w.sends, plan.start);
    assert src.RunOf(st.file, req).sends == w.sends;
    FrozenPages(src, st.file, req);
    if w.exit != HeadCancelled {
      CompletedRunReachesEverything(src.EnvFor(st.file, req), list, 0, plan.start,
                                    ConfiguredBatchSize(src.m, src.settings));
    }
    forall i | 0 <= i < |list|
      ensures list[i] in AcceptedRows(w.sends) <==> plan.start <= i < furthest
    {
      BroughtInIff(src, st.file, req, i);
    }
    CoveredIffListed(src, st, st', plan.last, plan.end);
    SkippedRowsAccepted(src, st, req);
    FurthestIsMaximum(w.sends, plan.start);
  }

  lemma SkippedRowsAccepted(src: Source, st: State, req: Request)
    requires Inv(src, st) && src.PlanOf(st.file, req).count > 0
    ensures var plan := src.PlanOf(st.file, req);
            var list := src.Listing(plan.last, plan.end);
            plan.start <= |list| && forall i :: 0 <= i < plan.start ==> list[i] in st.accepted
  {
    var plan := src.PlanOf(st.file, req);
    forall i | 0 <= i < plan.start
      ensures i < |src.Listing(plan.last, plan.end)| && src.Listing(plan.last, plan.end)[i] in st.accepted
    {
      SkippedIsAccepted(src, st, req, i);
    }
  }

  // ---------------------------------------------------------------------------------------------
  // The checkpoint of a failed requested full run
  // ---------------------------------------------------------------------------------------------

  /** A run that ends on its last row, or finds nothing to do, and moves the watermark. */
  ghost predicate FinishesWindow(src: Source, file: File, req: Request) {
    var plan, w := src.PlanOf(file, req), src.WalkOf(file, req);
    && req.disk.update && req.now >= FULL_SYNC_START
    && (plan.count == 0 || (w.exit in {Finished, EmptyPage} && w.offset > plan.start))
  }

  /** Whatever a run skips at its start, it covers its window exactly when that had been accepted. */
  lemma FinishingRunCoversIff(src: Source, st: State, req: Request)
    requires Distinct(src.rows) && FinishesWindow(src, st.file, req)
    requires st.file.Load().lastSyncTime >= FULL_SYNC_START && Covered(src, st, st.file.Load().lastSyncTime)
    ensures var plan, st' := src.PlanOf(st.file, req), Step(src, st, Sync(req));
            var list := src.Listing(plan.last, plan.end);
            && st'.file.Load().lastSyncTime == plan.end
            && (Covered(src, st', plan.end) <==>
                forall i :: 0 <= i < plan.start && i < |list| ==> list[i] in st.accepted)
  {
    var plan, w, st' := src.PlanOf(st.file, req), src.WalkOf(st.file, req), Step(src, st, Sync(req));
    var list := src.Listing(plan.last, plan.end);
    CoveredIffListed(src, st, st', plan.last, plan.end);
    if plan.count > 0 {
      assert src.RunOf(st.file, req).sends == w.sends;
      FrozenPages(src, st.file, req);
      CompletedRunReachesEverything(src.EnvFor(st.file, req), list, 0, plan.start,
                                    ConfiguredBatchSize(src.m, src.settings));
      forall i | 0 <= i < |list|
        ensures list[i] in AcceptedRows(w.sends) <==> plan.start <= i
      {
        BroughtInIff(src, st.file, req, i);
      }
    }
  }

  /** A requested full run that fails for good leaves its position as a checkpoint, which the next run takes
      for a position in its own listing.  When that run finishes, everything before the watermark is covered
      if and only if every row it skipped was accepted before the full run or brought in by it. */
  lemma FullCheckpointFitsIff(src: Source, st: State, full: Request, next: Request)
    requires Inv(src, st) && Distinct(src.rows)
    requires full.full && full.now >= FULL_SYNC_START && full.disk.saveCheckpoint
    requires var w := src.WalkOf(st.file, full);
             src.PlanOf(st.file, full).count > 0 && w.exit in {FetchFailed, SendFailed} && w.offset > 0
    requires !next.full && FinishesWindow(src, Step(src, st, Sync(full)).file, next)
    ensures var st1 := Step(src, st, Sync(full));
            var st2, plan, o := Step(src, st1, Sync(next)), src.PlanOf(st1.file, next),
                src.WalkOf(st.file, full).offset;
            var list := src.Listing(st.file.Load().lastSyncTime, full.now);
            && st2 == History(src, st, [Sync(full), Sync(next)])
            && st2.file.Load().lastSyncTime == full.now
            && plan.start == (if o < |list| || list == [] then o else 0)
            && (Covered(src, st2, full.now) <==>
                  forall i :: 0 <= i < plan.start && i < |list| ==>
                    list[i] in st.accepted || list[i] in AcceptedRows(src.WalkOf(st.file, full).sends))
  {
    var st1 := Step(src, st, Sync(full));
    assert src.RunOf(st.file, full).sends == src.WalkOf(st.file, full).sends;
    FinishingRunCoversIff(src, st1, next);
    TwoEvents(src, st, Sync(full), Sync(next));
  }

  lemma TwoEvents(src: Source, st: State, a: Event, b: Event)
    ensures History(src, st, [a, b]) == Step(src, Step(src, st, a), b)
  {
    var events, st1 := [a, b], Step(src, st, a);
    assert events[1..] == [b] && events[1..][1..] == [];
    assert History(src, st1, events[1..]) == Step(src, st1, events[1..][0]);
  }

  // ---------------------------------------------------------------------------------------------
  // Rows lost for good
  // ---------------------------------------------------------------------------------------------

  const GOOD := Weather(false, true, Acked, false)
  const REFUSED := Weather(false, true, Nacked(false, false), false)
  const ALL_WRITTEN := Disk(true, true, true, true)

  // Rows A, B and C, with the watermark between A and B.
  const ROW_A := SourceRow(1, FULL_SYNC_START)
  const ROW_B := SourceRow(2, FULL_SYNC_START + 20)
  const ROW_C := SourceRow(3, FULL_SYNC_START + 30)
  const ABC := Source(Products, Settings(1, 0), [ROW_A, ROW_B, ROW_C])
  const AFTER_A := WatermarkData(FULL_SYNC_START + 10, FULL_SYNC_START, 1, 1, 0, MIN_TIME)
  const END_OF_FULL := FULL_SYNC_START + 40
  const FULL_RUN := Request(true, END_OF_FULL, (k: nat) => if k == 0 then GOOD else REFUSED, ALL_WRITTEN)
  const NEXT_RUN := Request(false, FULL_SYNC_START + 50, (k: nat) => GOOD, ALL_WRITTEN)

  lemma ListingsOfAbc()
    ensures ABC.Listing(FULL_SYNC_START, END_OF_FULL) == [ROW_A, ROW_B, ROW_C]
    ensures ABC.Listing(AFTER_A.lastSyncTime, END_OF_FULL) == [ROW_B, ROW_C]
  {
    var inFull := (r: SourceRow) => FULL_SYNC_START <= r.time < END_OF_FULL;
    var inNext := (r: SourceRow) => AFTER_A.lastSyncTime <= r.time < END_OF_FULL;
    FilterAll([ROW_A, ROW_B, ROW_C], inFull);
    FilterAll([ROW_B, ROW_C], inNext);
    FilterCons(ROW_A, [ROW_B, ROW_C], inNext);
    assert [ROW_A] + [ROW_B, ROW_C] == [ROW_A, ROW_B, ROW_C];
  }

  /** The full run sends A, fails on B and leaves "resume at row 1 of the window". */
  lemma FailedFullRun()
    ensures var st' := Step(ABC, State(Stored(AFTER_A), {ROW_A}), Sync(FULL_RUN));
            && st'.file == Stored(AFTER_A.(resumeOffset := 1, resumeWindowEnd := END_OF_FULL))
            && ROW_B !in st'.accepted
  {
    ListingsOfAbc();
    var env := ABC.EnvFor(Stored(AFTER_A), FULL_RUN);
    var s0 := Sent(MakeBatch(env.page, 3, 0, 1), true, true);
    var s1 := Sent(MakeBatch(env.page, 3, 1, 1), false, false);
    assert Walk(env, 1, 1, 1) == Walked([s1], 1, SendFailed);
    assert ABC.WalkOf(Stored(AFTER_A), FULL_RUN) == Walked([s0, s1], 1, SendFailed);
    assert s0.batch.rows == [ROW_A];
  }

  /** The next run takes that for row 1 of its own shorter listing, and moves the watermark past B. */
  lemma NextRunSkipsB(st: State)
    requires st.file == Stored(AFTER_A.(resumeOffset := 1, resumeWindowEnd := END_OF_FULL))
    requires ROW_B !in st.accepted
    ensures var st' := Step(ABC, st, Sync(NEXT_RUN));
            st'.file.Load().lastSyncTime == END_OF_FULL && ROW_B !in st'.accepted
  {
    ListingsOfAbc();
    var env := ABC.EnvFor(st.file, NEXT_RUN);
    var s := Sent(MakeBatch(env.page, 2, 1, 1), true, true);
    assert Walk(env, 1, 2, 1) == Walked([], 2, Finished);
    assert ABC.WalkOf(st.file, NEXT_RUN) == Walked([s], 2, Finished);
    assert s.batch.rows == [ROW_C];
  }

  /** So a failed requested full run can lose a row for good. */
  lemma FailedFullRunLosesARow()
    ensures var st := State(Stored(AFTER_A), {ROW_A});
            var st' := History(ABC, st, [Sync(FULL_RUN), Sync(NEXT_RUN)]);
            && Inv(ABC, st)
            && ROW_B in ABC.rows && FULL_SYNC_START <= ROW_B.time < st'.file.Load().lastSyncTime
            && ROW_B !in st'.accepted
  {
    var st := State(Stored(AFTER_A), {ROW_A});
    FailedFullRun();
    NextRunSkipsB(Step(ABC, st, Sync(FULL_RUN)));
    TwoEvents(ABC, st, Sync(FULL_RUN), Sync(NEXT_RUN));
  }
  const CANCELLED := Weather(true, true, Acked, false)
  const CANCELLED_RUN := Request(false, END_OF_FULL, (k: nat) => if k == 0 then GOOD else CANCELLED, ALL_WRITTEN)

  /** The run sends B, sees the cancellation, and moves the watermark past C. */
  lemma CancelledRunSkipsC()
    ensures var st' := Step(ABC, State(Stored(AFTER_A), {ROW_A}), Sync(CANCELLED_RUN));
            st'.file.Load().lastSyncTime == END_OF_FULL && st'.file.Load().resumeOffset == 0 && ROW_C !in st'.accepted
  {
    ListingsOfAbc();
    var env := ABC.EnvFor(Stored(AFTER_A), CANCELLED_RUN);
    var s := Sent(MakeBatch(env.page, 2, 0, 1), true, true);
    assert Walk(env, 1, 1, 1) == Walked([], 1, HeadCancelled);
    assert ABC.WalkOf(Stored(AFTER_A), CANCELLED_RUN) == Walked([s], 1, HeadCancelled);
    assert s.batch.rows == [ROW_B];
  }

  /** The next run starts at the watermark and finds nothing. */
  lemma NothingAfterEnd(st: State)
    requires st.file.Load().lastSyncTime == END_OF_FULL && st.file.Load().resumeOffset == 0
    ensures Step(ABC, st, Sync(NEXT_RUN)).accepted == st.accepted
    ensures Step(ABC, st, Sync(NEXT_RUN)).file.Load().lastSyncTime == NEXT_RUN.now
  {
    FilterNone([ROW_A, ROW_B, ROW_C], (r: SourceRow) => END_OF_FULL <= r.time < NEXT_RUN.now);
    assert ABC.Listing(END_OF_FULL, NEXT_RUN.now) == [];
    assert AcceptedRows<SourceRow>([]) == {};
  }

  /** So a run cancelled at the head of its loop can lose a row for good. */
  lemma CancelledRunLosesARow()
    ensures var st := State(Stored(AFTER_A), {ROW_A});
            var st' := History(ABC, st, [Sync(CANCELLED_RUN), Sync(NEXT_RUN)]);
            && Inv(ABC, st)
            && ROW_C in ABC.rows && FULL_SYNC_START <= ROW_C.time < st'.file.Load().lastSyncTime
            && ROW_C !in st'.accepted
  {
    var st := State(Stored(AFTER_A), {ROW_A});
    CancelledRunSkipsC();
    NothingAfterEnd(Step(ABC, st, Sync(CANCELLED_RUN)));
    TwoEvents(ABC, st, Sync(CANCELLED_RUN), Sync(NEXT_RUN));
  }

  /** A failed full run is harmless when what the next run skips was accepted before. */
  lemma HarmlessFullRun()
    ensures Benign(ABC, State(Stored(AFTER_A), {ROW_A, ROW_B}), Sync(FULL_RUN))
  {
    ListingsOfAbc();
    var st := State(Stored(AFTER_A), {ROW_A, ROW_B});
    var env := ABC.EnvFor(Stored(AFTER_A), FULL_RUN);
    var s0 := Sent(MakeBatch(env.page, 3, 0, 1), true, true);
    var s1 := Sent(MakeBatch(env.page, 3, 1, 1), false, false);
    assert Walk(env, 1, 1, 1) == Walked([s1], 1, SendFailed);
    assert ABC.WalkOf(Stored(AFTER_A), FULL_RUN) == Walked([s0, s1], 1, SendFailed);
  }
}
