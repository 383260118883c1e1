/** The watermark file over whole histories of runs and restarts of the client: what a restart forgets, when a
    failed run is resumed after it, and why the watermark does not move back. */
module Restarts {
  import opened Paging
  import opened Watermarks
  import opened SyncClient
  import opened RunEndings

  /** `DateTime` counts from the first day of year 1. */
  lemma FullSyncStartsIn2000()
    ensures TICKS_PER_DAY == 24 * 60 * 60 * 10_000_000
    ensures FULL_SYNC_START == (1999 * 365 + 1999 / 4 - 1999 / 100 + 1999 / 400) * TICKS_PER_DAY
  {
  }

  // ---------------------------------------------------------------------------------------------
  // What a restart forgets
  // ---------------------------------------------------------------------------------------------

  function Restarted(file: File, n: nat): File {
    if n == 0 then file else Restarted(file, n - 1).Purged()
  }

  /** Restarts keep a file that counts rows, watermark and checkpoint included; of one that counts none nothing is
      left, and the module starts over. */
  lemma {:induction false} RestartsForgetIff(file: File, n: nat)
    ensures file.Load().totalRowsSynced != 0 ==> Restarted(file, n) == file
    ensures n > 0 && file.Load().totalRowsSynced == 0 ==>
              && Restarted(file, n) == Missing
              && Restarted(file, n).Load() == WatermarkData(FULL_SYNC_START, 0, 0, 0, 0, 0)
  {
    if n > 0 {
      RestartsForgetIff(file, n - 1);
    }
  }

  /** A run that fails past row 0 and then restarts are followed by a run over the same window, from the row where
      it failed, if and only if there was no restart or earlier runs had synced rows; otherwise the next run starts
      over in 2000, at row 0. */
  lemma ResumedAfterRestartsIff<T>(m: SyncModule, useWindow: bool, s: Settings, file: File, req: Request, n: nat,
                                   next: Request, getCount: Counter, getPage: WindowPager<T>)
    requires !req.full && !next.full && req.disk.saveCheckpoint
    requires MakePlan(useWindow, file, req, getCount).count > 0
    requires MakePlan(useWindow, file, req, getCount).end > MIN_TIME
    requires var w := WalkOfRun(m, useWindow, s, file, req, getCount, getPage);
             w.exit in {FetchFailed, SendFailed} && w.offset > 0
    ensures var plan, w := MakePlan(useWindow, file, req, getCount),
                WalkOfRun(m, useWindow, s, file, req, getCount, getPage);
            var file' := Restarted(RunOnce(m, useWindow, s, file, req, getCount, getPage).file, n);
            var plan' := MakePlan(useWindow, file', next, getCount);
            && (plan'.resumed <==> n == 0 || file.Load().totalRowsSynced != 0)
            && (plan'.resumed ==> plan' == Plan(plan.last, plan.end, plan.count, w.offset, true, false))
            && (!plan'.resumed ==> plan'.last == FULL_SYNC_START && plan'.end == next.now && plan'.start == 0)
  {
    RunLeaves(m, useWindow, s, file, req, getCount, getPage);
    NextRunResumes(m, useWindow, s, file, req, next, getCount, getPage);
    RestartsForgetIff(RunOnce(m, useWindow, s, file, req, getCount, getPage).file, n);
  }

  // ---------------------------------------------------------------------------------------------
  // The watermark moves forward
  // ---------------------------------------------------------------------------------------------

  /** A run, over whatever the source holds by then, or a restart. */
  datatype Event<!T> = Sync(req: Request, getCount: Counter, getPage: WindowPager<T>) | Restart

  function FileAfter<T>(m: SyncModule, useWindow: bool, s: Settings, file: File, e: Event<T>): File {
    match e
    case Sync(req, getCount, getPage) => RunOnce(m, useWindow, s, file, req, getCount, getPage).file
    case Restart => file.Purged()
  }

  function FileAfterAll<T>(m: SyncModule, useWindow: bool, s: Settings, file: File, events: seq<Event<T>>): File
    decreases |events|
  {
    if events == [] then file
    else FileAfterAll(m, useWindow, s, FileAfter(m, useWindow, s, file, events[0]), events[1..])
  }

  /** The run finds no rows in its window, or ends without a failure after sending some. */
  predicate Advances<T>(m: SyncModule, useWindow: bool, s: Settings, file: File, req: Request, getCount: Counter,
                        getPage: WindowPager<T>)
  {
    var plan := MakePlan(useWindow, file, req, getCount);
    var w := WalkOfRun(m, useWindow, s, file, req, getCount, getPage);
    plan.count == 0 || (w.exit !in {Aborted, FetchFailed, SendFailed} && w.offset > plan.start)
  }

  /** A run moves the watermark exactly when it advances and its last write reaches the disk, and then to the end
      of its window: back if and only if that lies before it. */
  lemma RunMovesBackIff<T>(m: SyncModule, useWindow: bool, s: Settings, file: File, req: Request, getCount: Counter,
                           getPage: WindowPager<T>)
    ensures var before, after := file.Load().lastSyncTime,
                RunOnce(m, useWindow, s, file, req, getCount, getPage).file.Load().lastSyncTime;
            var end := MakePlan(useWindow, file, req, getCount).end;
            var moves := req.disk.update && Advances(m, useWindow, s, file, req, getCount, getPage);
            && after == (if moves then end else before)
            && (after < before <==> moves && end < before)
  {
    var plan := MakePlan(useWindow, file, req, getCount);
    if plan.count == 0 {
      EmptyWindow(m, useWindow, s, file, req, getCount, getPage);
    } else {
      WalkAdvances(EnvOf(m, plan, req, getPage), 0, plan.start, ConfiguredBatchSize(m, s));
      RunLeaves(m, useWindow, s, file, req, getCount, getPage);
    }
  }

  /** The clock does not run behind the watermark, and a run whose last write reaches the disk also had its
      checkpoint cleared there: writes are lost from some point on. */
  ghost predicate Forward<T>(file: File, e: Event<T>) {
    e.Sync? ==> e.req.now >= file.Load().lastSyncTime && (e.req.disk.update ==> e.req.disk.clearCheckpoint)
  }

  ghost predicate AllForward<T>(m: SyncModule, useWindow: bool, s: Settings, file: File, events: seq<Event<T>>)
    decreases |events|
  {
    events == [] ||
    (Forward(file, events[0])
     && AllForward(m, useWindow, s, FileAfter(m, useWindow, s, file, events[0]), events[1..]))
  }

  /** The file counts rows, and a checkpoint belongs to a window that ends at or after the watermark. */
  ghost predicate Grown(file: File) {
    var d := file.Load();
    d.totalRowsSynced > 0 && (d.HasCheckpoint() ==> d.resumeWindowEnd >= d.lastSyncTime)
  }

  lemma EventKeepsGrown<T>(m: SyncModule, useWindow: bool, s: Settings, file: File, e: Event<T>)
    requires Grown(file) && Forward(file, e)
    ensures var file' := FileAfter(m, useWindow, s, file, e);
            && Grown(file') && file'.Load().lastSyncTime >= file.Load().lastSyncTime
            && file'.Load().totalRowsSynced >= file.Load().totalRowsSynced
  {
    match e
    case Restart =>
    case Sync(req, getCount, getPage) =>
      RunMovesBackIff(m, useWindow, s, file, req, getCount, getPage);
      RunKeepsGrown(m, useWindow, s, file, req, getCount, getPage);
  }

  lemma RunKeepsGrown<T>(m: SyncModule, useWindow: bool, s: Settings, file: File, req: Request, getCount: Counter,
                         getPage: WindowPager<T>)
    requires Grown(file) && req.now >= file.Load().lastSyncTime && (req.disk.update ==> req.disk.clearCheckpoint)
    ensures var file' := RunOnce(m, useWindow, s, file, req, getCount, getPage).file;
            Grown(file') && file'.Load().totalRowsSynced >= file.Load().totalRowsSynced
  {
    var plan := MakePlan(useWindow, file, req, getCount);
    if plan.count > 0 {
      WalkAdvances(EnvOf(m, plan, req, getPage), 0, plan.start, ConfiguredBatchSize(m, s));
    }
  }

  /** Once a run has moved the watermark with rows, no history of runs and restarts moves it back. */
  lemma {:induction false} WatermarkNeverMovesBack<T>(m: SyncModule, useWindow: bool, s: Settings, file: File,
                                                      events: seq<Event<T>>)
    requires Grown(file) && AllForward(m, useWindow, s, file, events)
    ensures var file' := FileAfterAll(m, useWindow, s, file, events);
            && Grown(file') && file'.Load().lastSyncTime >= file.Load().lastSyncTime
            && file'.Load().totalRowsSynced >= file.Load().totalRowsSynced
    decreases |events|
  {
    if events != [] {
      EventKeepsGrown(m, useWindow, s, file, events[0]);
      WatermarkNeverMovesBack(m, useWindow, s, FileAfter(m, useWindow, s, file, events[0]), events[1..]);
    }
  }

  /** Writes have to be lost in order: when a requested full run that succeeds over a pending checkpoint moves the
      watermark but the clearing of the checkpoint alone does not reach the disk, the next run resumes that
      checkpoint, finds nothing in the reversed window, and moves the watermark back to the checkpoint's end. */
  lemma LostClearingMovesBack<T>(m: SyncModule, useWindow: bool, s: Settings, file: File, req: Request, next: Request,
                                 getCount: Counter, later: Counter, getPage: WindowPager<T>)
    requires file.Load().HasCheckpoint() && file.Load().resumeWindowEnd < req.now
    requires req.full && Advances(m, useWindow, s, file, req, getCount, getPage)
    requires req.disk.update && !req.disk.clearCheckpoint
    requires !next.full && next.disk.update && later(req.now, file.Load().resumeWindowEnd) == 0
    ensures var once := FileAfter(m, useWindow, s, file, Sync(req, getCount, getPage));
            var twice := FileAfter(m, useWindow, s, once, Sync(next, later, getPage));
            && once.Load().lastSyncTime == req.now
            && twice.Load().lastSyncTime == file.Load().resumeWindowEnd < req.now
  {
    var once := FileAfter(m, useWindow, s, file, Sync(req, getCount, getPage));
    RunMovesBackIff(m, useWindow, s, file, req, getCount, getPage);
    var plan := MakePlan(useWindow, file, req, getCount);
    if plan.count > 0 {
      WalkAdvances(EnvOf(m, plan, req, getPage), 0, plan.start, ConfiguredBatchSize(m, s));
    }
    assert once.Load().HasCheckpoint() && once.Load().resumeWindowEnd == file.Load().resumeWindowEnd;
    RunMovesBackIff(m, useWindow, s, once, next, later, getPage);
  }
}
