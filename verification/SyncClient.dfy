/** One run of the paginated sync for one module, as a function of the stored watermark file and of
    everything the outside world answers, and the imperative client that implements it. */
module SyncClient {
  import opened Sequences
  import opened Paging
  import opened Watermarks

  /** Which of the writes of a run reach the disk.  A process that stops between two writes is a run
      whose later writes are lost. */
  datatype Disk = Disk(clearStale: bool, saveCheckpoint: bool, clearCheckpoint: bool, update: bool)

  datatype Settings = Settings(batchSize: int, lookbackDays: int)

  datatype Request = Request(full: bool, now: Time, weather: nat -> Weather, disk: Disk)

  datatype Status = Running | Ok | Error | Warning

  datatype Run<T> = Run(file: File, sends: seq<Sent<T>>, status: Status, rowsSynced: nat)

  type Counter = (Time, Time) -> nat
  type WindowPager<!T> = (Time, Time, nat, nat) -> seq<T>

  function ConfiguredBatchSize(m: SyncModule, s: Settings): (size: nat)
    ensures size > 0
  {
    var configured := Max(1, s.batchSize);
    if m == Orders && configured > 200 then 200 else configured
  }

  function MinBatchSize(m: SyncModule): (size: nat)
    ensures size > 0
  {
    if m == Orders then 25 else 50
  }

  /** Orders re-scan a rolling lookback window, except in the initial full sync. */
  function GetOrdersWindowStart(lookbackDays: int, lastSyncTime: Time): Time {
    if lookbackDays <= 0 then lastSyncTime
    else if lastSyncTime <= FULL_SYNC_START + 2 * TICKS_PER_DAY then lastSyncTime
    else
      var adjusted := lastSyncTime - lookbackDays * TICKS_PER_DAY;
      if adjusted < FULL_SYNC_START then FULL_SYNC_START else adjusted
  }

  /** The window and starting point a run decides on before its loop. */
  datatype Plan = Plan(last: Time, end: Time, count: nat, start: nat, resumed: bool, stale: bool)

  function MakePlan(useWindow: bool, file: File, req: Request, getCount: Counter): Plan {
    var mark := file.Load();
    var last := if req.full && useWindow then FULL_SYNC_START else mark.lastSyncTime;
    var resuming := !req.full && mark.HasCheckpoint();
    var end := if resuming then mark.resumeWindowEnd else req.now;
    var count := getCount(last, end);
    var stale := resuming && count > 0 && mark.resumeOffset >= count;
    var resumed := resuming && !stale;
    Plan(last, end, count, if resumed then mark.resumeOffset else 0, resumed, stale)
  }

  function EnvOf<T>(m: SyncModule, plan: Plan, req: Request, getPage: WindowPager<T>): Env<T> {
    Env(req.weather, (offset: nat, n: nat) => getPage(plan.last, plan.end, offset, n), plan.count, MinBatchSize(m))
  }

  /** What the end of a run does to the watermark file, once a failed run has left its checkpoint. */
  function Finish(file: File, plan: Plan, disk: Disk, rowsSynced: nat, exit: Exit): (File, Status) {
    if exit == Aborted then (file, Warning)
    else if exit in {FetchFailed, SendFailed} then (file, Error)
    else if rowsSynced > 0 then
      var total := rowsSynced + if plan.resumed then plan.start else 0;
      (file.WithoutCheckpoint(disk.clearCheckpoint).Updated(plan.end, total, disk.update), Ok)
    else if !plan.resumed then (file.WithoutCheckpoint(disk.clearCheckpoint), Ok)
    else (file, Running)
  }

  function Conclude<T>(file: File, plan: Plan, disk: Disk, w: Walked<T>): Run<T>
    requires w.offset >= plan.start
  {
    var rowsSynced := w.offset - plan.start;
    var saved := if w.exit in {FetchFailed, SendFailed}
        then file.WithCheckpoint(w.offset, plan.end, disk.saveCheckpoint) else file;
    var (final, status) := Finish(saved, plan, disk, rowsSynced, w.exit);
    Run(final, w.sends, status, rowsSynced)
  }

  lemma StopFacts<T>(env: Env<T>, now: Weather, offset: nat, size: nat)
    requires size > 0 && env.minSize > 0
    ensures var turn := TakeTurn(env, now, offset, size);
            turn.Stop? && turn.walked.exit in {FetchFailed, SendFailed} ==> turn.walked.offset == offset
  {
  }

  lemma {:induction false} WalkAdvances<T>(env: Env<T>, k: nat, offset: nat, size: nat)
    requires size > 0 && env.minSize > 0
    ensures Walk(env, k, offset, size).offset >= offset
    decreases Max(0, env.count - offset), size
  {
    match TakeTurn(env, env.weather(k), offset, size)
    case Stop(_) =>
    case Go(_, next, size') => WalkAdvances(env, k + 1, next, size');
  }

  lemma AfterAfter<T>(w: Walked<T>, a: seq<Sent<T>>, b: seq<Sent<T>>)
    ensures w.After(b).After(a) == w.After(a + b)
  {
    ConcatAssoc(a, b, w.sends);
  }

  function RunOnce<T>(m: SyncModule, useWindow: bool, s: Settings, file: File, req: Request,
                      getCount: Counter, getPage: WindowPager<T>): Run<T>
  {
    var plan := MakePlan(useWindow, file, req, getCount);
    if plan.count == 0 then
      Run(file.WithoutCheckpoint(req.disk.clearCheckpoint).Updated(plan.end, 0, req.disk.update), [], Ok, 0)
    else
      var ready := if plan.stale then file.WithoutCheckpoint(req.disk.clearStale) else file;
      var env := EnvOf(m, plan, req, getPage);
      WalkAdvances(env, 0, plan.start, ConfiguredBatchSize(m, s));
      Conclude(ready, plan, req.disk, Walk(env, 0, plan.start, ConfiguredBatchSize(m, s)))
  }

  /** A run that fails past row 0 and was not a requested full one is resumed by the next such run: the same
      window and count, from the position where it failed, with the configured chunk size. */
  lemma NextRunResumes<T>(m: SyncModule, useWindow: bool, s: Settings, file: File, req: Request, next: Request,
                          getCount: Counter, getPage: WindowPager<T>)
    requires !req.full && !next.full && req.disk.saveCheckpoint
    requires var plan := MakePlan(useWindow, file, req, getCount);
             && plan.count > 0 && plan.end > MIN_TIME
             && var w := Walk(EnvOf(m, plan, req, getPage), 0, plan.start, ConfiguredBatchSize(m, s));
                w.exit in {FetchFailed, SendFailed} && w.offset > 0
    ensures var plan := MakePlan(useWindow, file, req, getCount);
            var size := ConfiguredBatchSize(m, s);
            var w := Walk(EnvOf(m, plan, req, getPage), 0, plan.start, size);
            var file' := RunOnce(m, useWindow, s, file, req, getCount, getPage).file;
            var plan' := MakePlan(useWindow, file', next, getCount);
            && plan' == Plan(plan.last, plan.end, plan.count, w.offset, true, false)
            && RunOnce(m, useWindow, s, file', next, getCount, getPage).sends
               == Walk(EnvOf(m, plan', next, getPage), 0, w.offset, size).sends
  {
    var plan, size := MakePlan(useWindow, file, req, getCount), ConfiguredBatchSize(m, s);
    var env := EnvOf(m, plan, req, getPage);
    FailsBeforeTheCount(env, 0, plan.start, size);
    WalkAdvances(env, 0, plan.start, size);
  }

  lemma {:induction false} FailsBeforeTheCount<T>(env: Env<T>, k: nat, offset: nat, size: nat)
    requires size > 0 && env.minSize > 0
    ensures var w := Walk(env, k, offset, size); w.exit in {FetchFailed, SendFailed} ==> w.offset < env.count
    decreases Max(0, env.count - offset), size
  {
    match TakeTurn(env, env.weather(k), offset, size)
    case Stop(_) =>
    case Go(_, next, size') => FailsBeforeTheCount(env, k + 1, next, size');
  }

  class SyncOrchestrator<T> {
    const watermarks: WatermarkService
    const settings: Settings
    /** Everything handed to the API client, in order, with what became of it. */
    var outbox: seq<Sent<T>>

    constructor (watermarks: WatermarkService, settings: Settings)
      ensures this.watermarks == watermarks && this.settings == settings && outbox == []
    {
      this.watermarks, this.settings, outbox := watermarks, settings, [];
    }

    method BuildBatch(plan: Plan, getPage: WindowPager<T>, offset: nat, batchSize: nat) returns (batch: Batch<T>)
      requires batchSize > 0
      ensures batch == MakeBatch((o: nat, n: nat) => getPage(plan.last, plan.end, o, n), plan.count, offset, batchSize)
    {
      var totalBatches := (plan.count + batchSize - 1) / batchSize;
      var batchIndex := offset / batchSize;
      batch := Batch(batchIndex, totalBatches, offset, batchSize, getPage(plan.last, plan.end, offset, batchSize));
    }

    /** One turn of the page loop: fetch a page, send it, and decide how to go on. */
    method SendPage(m: SyncModule, req: Request, turn: nat, plan: Plan, getPage: WindowPager<T>, offset: nat,
                    batchSize: nat)
      returns (next: Turn<T>)
      requires batchSize > 0 && offset < plan.count
      modifies this`outbox, watermarks
      ensures next == TakeTurn(EnvOf(m, plan, req, getPage), req.weather(turn), offset, batchSize)
      ensures outbox == old(outbox) + (if next.Go? then [next.sent] else next.walked.sends)
      ensures watermarks.FileOf(m) ==
              if next.Stop? && next.walked.exit in {FetchFailed, SendFailed}
              then old(watermarks.FileOf(m)).WithCheckpoint(offset, plan.end, req.disk.saveCheckpoint)
              else old(watermarks.FileOf(m))
      ensures forall other :: other != m ==> watermarks.FileOf(other) == old(watermarks.FileOf(other))
    {
      var now := req.weather(turn);
      if now.cancelled {
        return Stop(Walked([], offset, HeadCancelled));
      }
      var minBatchSize := if m == Orders then 25 else 50;
      if !now.fetched {
        watermarks.SaveCheckpoint(m, offset, plan.end, req.disk.saveCheckpoint);
        return Stop(Walked([], offset, FetchFailed));
      }
      var batch := BuildBatch(plan, getPage, offset, batchSize);
      var rows := batch.rows;
      if |rows| == 0 {
        return Stop(Walked([], offset, EmptyPage));
      }
      var sent := Sent(batch, now.reply.Acked? || now.reply.delivered, now.reply.Acked?);
      outbox := outbox + [sent];
      match now.reply {
        case Thrown(_) =>
          return Stop(Walked([sent], offset, Aborted));
        case Nacked(_, retryable) =>
          if batchSize > minBatchSize && retryable {
            return Go(sent, offset, Max(minBatchSize, batchSize / 2));
          }
          watermarks.SaveCheckpoint(m, offset, plan.end, req.disk.saveCheckpoint);
          return Stop(Walked([sent], offset, SendFailed));
        case Acked =>
          if offset + |rows| < plan.count && now.interrupted {
            return Stop(Walked([sent], offset + |rows|, Aborted));
          }
          return Go(sent, offset + |rows|, batchSize);
      }
    }

    /** The page loop sends what `Walk` says, stops where `Walk` says, and leaves a checkpoint at that
        offset exactly when a fetch or a batch failed for good. */
    method SendPages(m: SyncModule, req: Request, plan: Plan, getPage: WindowPager<T>)
      returns (offset: nat, exit: Exit)
      modifies this`outbox, watermarks
      ensures var w := Walk(EnvOf(m, plan, req, getPage), 0, plan.start, ConfiguredBatchSize(m, settings));
              && offset == w.offset && exit == w.exit
              && outbox == old(outbox) + w.sends
      ensures watermarks.FileOf(m) ==
              if exit in {FetchFailed, SendFailed}
              then old(watermarks.FileOf(m)).WithCheckpoint(offset, plan.end, req.disk.saveCheckpoint)
              else old(watermarks.FileOf(m))
      ensures forall other :: other != m ==> watermarks.FileOf(other) == old(watermarks.FileOf(other))
    {
      var batchSize := Max(1, settings.batchSize);
      if m == Orders && batchSize > 200 {
        batchSize := 200;
      }
      assert batchSize == ConfiguredBatchSize(m, settings);
      var turn := 0;
      offset := plan.start;
      exit := Finished;
      ghost var env := EnvOf(m, plan, req, getPage);
      ghost var whole := Walk(env, 0, plan.start, batchSize);
      ghost var sends: seq<Sent<T>> := [];
      assert whole.After([]) == whole;
      while offset < plan.count
        invariant batchSize > 0 && exit == Finished
        invariant whole == Walk(env, turn, offset, batchSize).After(sends)
        invariant outbox == old(outbox) + sends
        invariant watermarks.FileOf(m) == old(watermarks.FileOf(m))
        invariant forall other :: other != m ==> watermarks.FileOf(other) == old(watermarks.FileOf(other))
        decreases Max(0, plan.count - offset), batchSize
      {
        var next := SendPage(m, req, turn, plan, getPage, offset, batchSize);
        ghost var sent := if next.Go? then [next.sent] else next.walked.sends;
        ConcatAssoc(old(outbox), sends, sent);
        if next.Stop? {
          StopFacts(env, req.weather(turn), offset, batchSize);
          offset, exit := next.walked.offset, next.walked.exit;
          sends := sends + sent;
          break;
        }
        turn, offset, batchSize := turn + 1, next.offset, next.size;
        AfterAfter(Walk(env, turn, offset, batchSize), sends, sent);
        sends := sends + sent;
      }
      assert whole == Walked(sends, offset, exit);
    }

    /** The window and starting point of a run; a checkpoint beyond the row count is dropped. */
    method PlanRun(m: SyncModule, useWindow: bool, req: Request, getCount: Counter) returns (plan: Plan)
      modifies watermarks
      ensures plan == MakePlan(useWindow, old(watermarks.FileOf(m)), req, getCount)
      ensures watermarks.FileOf(m) ==
              if plan.stale then old(watermarks.FileOf(m)).WithoutCheckpoint(req.disk.clearStale)
              else old(watermarks.FileOf(m))
      ensures forall other :: other != m ==> watermarks.FileOf(other) == old(watermarks.FileOf(other))
    {
      var mark := watermarks.GetWatermark(m);
      var lastSyncTime := if req.full && useWindow then FULL_SYNC_START else mark.lastSyncTime;
      var resumeOffset, resumeWindowEnd := 0, MIN_TIME;
      if !req.full {
        resumeOffset, resumeWindowEnd := mark.resumeOffset, mark.resumeWindowEnd;
      }
      var isResume := !req.full && resumeOffset > 0 && resumeWindowEnd > MIN_TIME;
      var syncEndTime := if isResume then resumeWindowEnd else req.now;
      var totalCount := getCount(lastSyncTime, syncEndTime);
      var startOffset := if isResume then resumeOffset else 0;
      var stale := totalCount > 0 && startOffset >= totalCount;
      if stale {
        watermarks.ClearCheckpoint(m, req.disk.clearStale);
        startOffset := 0;
        isResume := false;
      }
      plan := Plan(lastSyncTime, syncEndTime, totalCount, startOffset, isResume, stale);
    }

    /** One run does to the watermark file and sends to the backend exactly what `RunOnce` says, and
        touches no other module's file. */
    method RunPaginatedSync(m: SyncModule, useWindow: bool, req: Request, getCount: Counter, getPage: WindowPager<T>)
      returns (status: Status, rowsSynced: nat)
      modifies this`outbox, watermarks
      ensures var run := RunOnce(m, useWindow, settings, old(watermarks.FileOf(m)), req, getCount, getPage);
              && watermarks.FileOf(m) == run.file
              && outbox == old(outbox) + run.sends
              && status == run.status
              && rowsSynced == run.rowsSynced
      ensures forall other :: other != m ==> watermarks.FileOf(other) == old(watermarks.FileOf(other))
    {
      var plan := PlanRun(m, useWindow, req, getCount);
      if plan.count == 0 {
        watermarks.ClearCheckpoint(m, req.disk.clearCheckpoint);
        watermarks.UpdateWatermark(m, plan.end, 0, req.disk.update);
        return Ok, 0;
      }
      var offset, exit := SendPages(m, req, plan, getPage);
      WalkAdvances(EnvOf(m, plan, req, getPage), 0, plan.start, ConfiguredBatchSize(m, settings));
      rowsSynced := offset - plan.start;
      status := FinishRun(m, req, plan, rowsSynced, exit);
    }

    /** The end of a run: the watermark advances exactly when no batch failed and some row was sent. */
    method FinishRun(m: SyncModule, req: Request, plan: Plan, rowsSynced: nat, exit: Exit) returns (status: Status)
      modifies watermarks
      ensures (watermarks.FileOf(m), status) == Finish(old(watermarks.FileOf(m)), plan, req.disk, rowsSynced, exit)
      ensures forall other :: other != m ==> watermarks.FileOf(other) == old(watermarks.FileOf(other))
    {
      status := Running;
      if exit == Aborted {
        status := Warning;
      } else if exit == FetchFailed || exit == SendFailed {
        status := Error;
      } else if rowsSynced > 0 {
        watermarks.ClearCheckpoint(m, req.disk.clearCheckpoint);
        watermarks.UpdateWatermark(m, plan.end, rowsSynced + (if plan.resumed then plan.start else 0), req.disk.update);
        status := Ok;
      } else if !plan.resumed {
        watermarks.ClearCheckpoint(m, req.disk.clearCheckpoint);
        status := Ok;
      }
    }
  }
}
