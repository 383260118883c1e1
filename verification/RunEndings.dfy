/** How a run ends: which answer of the outside world lets it go on, from where and in which chunks, which one
    ends it, and what is then on the disk. */
module RunEndings {
  import opened Paging
  import opened Watermarks
  import opened SyncClient

  // ---------------------------------------------------------------------------------------------
  // Which answers end a run
  // ---------------------------------------------------------------------------------------------

  /** After attempt `i` the run goes on at row `o` in chunks of `c`: its next attempt is there, or it stops there
      without another attempt. */
  ghost predicate GoesOn<T>(w: Walked<T>, i: nat, o: nat, c: nat) {
    if i + 1 < |w.sends| then w.sends[i + 1].batch.offset == o && w.sends[i + 1].batch.size == c
    else i + 1 == |w.sends| && w.offset == o && w.exit in {Finished, HeadCancelled, EmptyPage, FetchFailed}
  }

  /** Attempt `i` is the last one and ends the run. */
  ghost predicate EndsRun<T>(w: Walked<T>, i: nat, o: nat, exit: Exit) {
    i + 1 == |w.sends| && w.offset == o && w.exit == exit
  }

  /** What becomes of a run after its attempt to send `b`. */
  ghost predicate Decides<T>(env: Env<T>, now: Weather, w: Walked<T>, i: nat, b: Batch<T>) {
    match now.reply
    case Acked =>
      if now.interrupted && b.offset + |b.rows| < env.count then EndsRun(w, i, b.offset + |b.rows|, Aborted)
      else GoesOn(w, i, b.offset + |b.rows|, b.size)
    case Nacked(_, retryable) =>
      if retryable && b.size > env.minSize
      then GoesOn(w, i, b.offset, if b.size / 2 < env.minSize then env.minSize else b.size / 2)
      else EndsRun(w, i, b.offset, SendFailed)
    case Thrown(_) => EndsRun(w, i, b.offset, Aborted)
  }

  /** The attempt is made with the page that the source yields at its position, and records the answer. */
  ghost predicate Records<T>(env: Env<T>, now: Weather, s: Sent<T>) {
    && !now.cancelled && now.fetched
    && s.batch.offset < env.count && s.batch.size > 0
    && s.batch.rows == env.page(s.batch.offset, s.batch.size) != []
    && (s.acked <==> now.reply.Acked?)
    && (s.delivered <==> now.reply.Acked? || now.reply.delivered)
  }

  /** After every attempt of a run: an acknowledged page takes it to the row behind the page, unless the pause
      before the next one is cut short; a refused page is tried again in half chunks, but not below the minimum,
      if and only if the answer allows it and the chunk is above the minimum, and ends the run at its row
      otherwise; a thrown one ends the run. */
  lemma {:induction false} AttemptDecides<T>(env: Env<T>, k: nat, offset: nat, size: nat, i: nat)
    requires size > 0 && env.minSize > 0
    requires i < |Walk(env, k, offset, size).sends|
    ensures var w, now := Walk(env, k, offset, size), env.weather(k + i);
            Records(env, now, w.sends[i]) && Decides(env, now, w, i, w.sends[i].batch)
    decreases Max(0, env.count - offset), size
  {
    if i == 0 {
      FirstDecides(env, k, offset, size);
    } else {
      var turn := TakeTurn(env, env.weather(k), offset, size);
      assert turn.Go?;
      var rest := Walk(env, k + 1, turn.offset, turn.size);
      assert Walk(env, k, offset, size) == rest.After([turn.sent]);
      AttemptDecides(env, k + 1, turn.offset, turn.size, i - 1);
      DecidesLater(env, env.weather(k + i), rest, turn.sent, i - 1, rest.sends[i - 1].batch);
    }
  }

  lemma FirstDecides<T>(env: Env<T>, k: nat, offset: nat, size: nat)
    requires size > 0 && env.minSize > 0 && Walk(env, k, offset, size).sends != []
    ensures var w, now := Walk(env, k, offset, size), env.weather(k);
            Records(env, now, w.sends[0]) && Decides(env, now, w, 0, w.sends[0].batch)
  {
    match TakeTurn(env, env.weather(k), offset, size)
    case Stop(_) =>
    case Go(sent, next, size') =>
      FirstAttempt(env, k + 1, next, size');
  }

  lemma DecidesLater<T>(env: Env<T>, now: Weather, rest: Walked<T>, sent: Sent<T>, i: nat, b: Batch<T>)
    requires i < |rest.sends| && Decides(env, now, rest, i, b)
    ensures Decides(env, now, rest.After([sent]), i + 1, b)
  {
    var w := rest.After([sent]);
    assert |w.sends| == |rest.sends| + 1;
    assert i + 1 < |rest.sends| ==> w.sends[i + 2] == rest.sends[i + 1];
  }

  /** The first attempt of a run is made where the run starts, in chunks of its first size; a run without attempts
      ends there. */
  lemma FirstAttempt<T>(env: Env<T>, k: nat, offset: nat, size: nat)
    requires size > 0 && env.minSize > 0
    ensures var w := Walk(env, k, offset, size);
            if w.sends == [] then w.offset == offset && w.exit in {Finished, HeadCancelled, EmptyPage, FetchFailed}
            else w.sends[0].batch.offset == offset && w.sends[0].batch.size == size
  {
  }

  /** A run that stops without an attempt is at the row count, or finds itself cancelled, or fails to fetch, or
      fetches an empty page, and says which. */
  lemma {:induction false} StopDecides<T>(env: Env<T>, k: nat, offset: nat, size: nat)
    requires size > 0 && env.minSize > 0
    ensures var w := Walk(env, k, offset, size);
            var now := env.weather(k + |w.sends|);
            w.exit in {Finished, HeadCancelled, EmptyPage, FetchFailed} ==>
              && (w.exit == Finished <==> w.offset >= env.count)
              && (w.exit == HeadCancelled <==> w.offset < env.count && now.cancelled)
              && (w.exit == FetchFailed <==> w.offset < env.count && !now.cancelled && !now.fetched)
              && (w.exit == EmptyPage ==> exists c: nat :: 0 < c <= size && env.page(w.offset, c) == [])
    decreases Max(0, env.count - offset), size
  {
    match TakeTurn(env, env.weather(k), offset, size)
    case Stop(_) =>
      assert env.page(offset, size) == env.page(offset, size);
    case Go(_, next, size') =>
      StopDecides(env, k + 1, next, size');
  }

  // ---------------------------------------------------------------------------------------------
  // What a run leaves behind
  // ---------------------------------------------------------------------------------------------

  function WalkOfRun<T>(m: SyncModule, useWindow: bool, s: Settings, file: File, req: Request, getCount: Counter,
                        getPage: WindowPager<T>): Walked<T>
  {
    var plan := MakePlan(useWindow, file, req, getCount);
    Walk(EnvOf(m, plan, req, getPage), 0, plan.start, ConfiguredBatchSize(m, s))
  }

  /** A run that fails says so and leaves a checkpoint where it stopped, and one that is aborted leaves the file
      alone; any other run that sent rows moves the watermark to the end of its window and counts every row up to
      where it stopped, and one that sent none moves nothing. */
  lemma RunLeaves<T>(m: SyncModule, useWindow: bool, s: Settings, file: File, req: Request, getCount: Counter,
                     getPage: WindowPager<T>)
    requires MakePlan(useWindow, file, req, getCount).count > 0
    ensures var plan, w := MakePlan(useWindow, file, req, getCount),
                WalkOfRun(m, useWindow, s, file, req, getCount, getPage);
            var run := RunOnce(m, useWindow, s, file, req, getCount, getPage);
            var before, after := file.Load(), run.file.Load();
            && run.sends == w.sends && run.rowsSynced == w.offset - plan.start
            && (run.status == Error <==> w.exit in {FetchFailed, SendFailed})
            && (run.status == Warning <==> w.exit == Aborted)
            && (run.status == Running <==> w.exit in {Finished, HeadCancelled, EmptyPage} && plan.resumed
                                           && w.offset == plan.start)
            && (run.status == Error && req.disk.saveCheckpoint ==>
                  run.file.Stored? && after == before.(resumeOffset := w.offset, resumeWindowEnd := plan.end))
            && (run.status in {Warning, Running} && !plan.stale ==> run.file == file)
            && (run.status == Ok && req.disk.clearCheckpoint ==>
                  && after.resumeOffset == 0
                  && (before.resumeOffset > 0 ==> after.resumeWindowEnd == MIN_TIME))
            && (run.status == Ok && w.offset > plan.start && req.disk.update ==>
                  && run.file.Stored?
                  && after.lastSyncTime == plan.end && after.lastSuccessfulSync == before.lastSyncTime
                  && after.totalRowsSynced == before.totalRowsSynced + w.offset
                  && after.syncCount == before.syncCount + 1)
            && (run.status != Ok || w.offset == plan.start || !req.disk.update ==>
                  after.lastSyncTime == before.lastSyncTime && after.totalRowsSynced == before.totalRowsSynced)
  {
    var plan := MakePlan(useWindow, file, req, getCount);
    WalkAdvances(EnvOf(m, plan, req, getPage), 0, plan.start, ConfiguredBatchSize(m, s));
  }

  /** What a refused page does to a run: it is tried again from the same row in half chunks, if the answer allows
      it and the chunk is above 25 rows for orders or 50 for other modules; otherwise the run ends there with an
      error, and with a checkpoint at that row for the run's window, while the watermark stays. */
  lemma RefusedPage<T>(m: SyncModule, useWindow: bool, s: Settings, file: File, req: Request, getCount: Counter,
                       getPage: WindowPager<T>, i: nat)
    requires MakePlan(useWindow, file, req, getCount).count > 0
    requires i < |RunOnce(m, useWindow, s, file, req, getCount, getPage).sends| && req.weather(i).reply.Nacked?
    ensures var run := RunOnce(m, useWindow, s, file, req, getCount, getPage);
            var b, smallest := run.sends[i].batch, if m == Orders then 25 else 50;
            var half := if b.size / 2 < smallest then smallest else b.size / 2;
            if req.weather(i).reply.retryable && b.size > smallest
            then GoesOn(WalkOfRun(m, useWindow, s, file, req, getCount, getPage), i, b.offset, half)
            else
              && i == |run.sends| - 1 && run.status == Error
              && run.file.Load().lastSyncTime == file.Load().lastSyncTime
              && (req.disk.saveCheckpoint ==>
                    && run.file.Load().resumeOffset == b.offset
                    && run.file.Load().resumeWindowEnd == MakePlan(useWindow, file, req, getCount).end)
  {
    var plan := MakePlan(useWindow, file, req, getCount);
    RunLeaves(m, useWindow, s, file, req, getCount, getPage);
    AttemptDecides(EnvOf(m, plan, req, getPage), 0, plan.start, ConfiguredBatchSize(m, s), i);
  }

  /** Where a run starts: at the checkpoint, in its window, unless the run was requested as a full one, there is no
      checkpoint, or it lies beyond the row count; a requested full run of a module with a window starts in 2000.
      The first chunk has the configured size, for orders at most 200 rows. */
  lemma RunStarts<T>(m: SyncModule, useWindow: bool, s: Settings, file: File, req: Request, getCount: Counter,
                     getPage: WindowPager<T>)
    ensures var run, mark := RunOnce(m, useWindow, s, file, req, getCount, getPage), file.Load();
            var resuming := !req.full && mark.resumeOffset > 0 && mark.resumeWindowEnd > 0;
            var last := if req.full && useWindow then 630_822_816_000_000_000 else mark.lastSyncTime;
            var end := if resuming then mark.resumeWindowEnd else req.now;
            var start := if resuming && mark.resumeOffset < getCount(last, end) then mark.resumeOffset else 0;
            var size: nat := if s.batchSize < 1 then 1 else if m == Orders && s.batchSize > 200 then 200
                else s.batchSize;
            run.sends != [] ==>
              && run.sends[0].batch.rows == getPage(last, end, start, size)
              && run.sends[0].batch.offset == start && run.sends[0].batch.size == size
  {
    var plan := MakePlan(useWindow, file, req, getCount);
    if plan.count > 0 {
      FirstAttempt(EnvOf(m, plan, req, getPage), 0, plan.start, ConfiguredBatchSize(m, s));
      if WalkOfRun(m, useWindow, s, file, req, getCount, getPage).sends != [] {
        AttemptDecides(EnvOf(m, plan, req, getPage), 0, plan.start, ConfiguredBatchSize(m, s), 0);
      }
    }
  }

  /** A window without rows moves the watermark to its end and drops the checkpoint, and sends nothing. */
  lemma EmptyWindow<T>(m: SyncModule, useWindow: bool, s: Settings, file: File, req: Request, getCount: Counter,
                       getPage: WindowPager<T>)
    requires MakePlan(useWindow, file, req, getCount).count == 0
    ensures var run := RunOnce(m, useWindow, s, file, req, getCount, getPage);
            && run.sends == [] && run.status == Ok && run.rowsSynced == 0
            && (req.disk.clearCheckpoint ==> !run.file.Load().HasCheckpoint())
            && (req.disk.update ==>
                  && run.file.Load().lastSyncTime == MakePlan(useWindow, file, req, getCount).end
                  && run.file.Load().totalRowsSynced == file.Load().totalRowsSynced)
            && (!req.disk.update ==> run.file.Load().lastSyncTime == file.Load().lastSyncTime)
  {
  }
}
