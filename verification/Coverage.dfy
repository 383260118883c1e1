/** Watermark coverage over whole histories of runs: every source row timestamped before the stored
    watermark has been in a batch that the backend accepted. */
module Coverage {
  import opened Sequences
  import opened Paging
  import opened PagingProperties
  import opened Reach
  import opened Watermarks
  import opened SyncClient

  datatype SourceRow = SourceRow(id: int, time: Time)

  /** The rows of the source in the order the page query lists them, restricted to a window.  The
      source is frozen inside a window: a row keeps its place and its timestamp. */
  function Window(src: seq<SourceRow>, lo: Time, hi: Time): seq<SourceRow> {
    Filter(src, (r: SourceRow) => lo <= r.time < hi)
  }

  lemma WindowMembers(src: seq<SourceRow>, lo: Time, hi: Time, r: SourceRow)
    ensures r in Window(src, lo, hi) <==> r in src && lo <= r.time < hi
  {
    FilterMembers(src, (r: SourceRow) => lo <= r.time < hi, r);
  }

  function WindowStart(m: SyncModule, s: Settings, last: Time): Time {
    if m == Orders then GetOrdersWindowStart(s.lookbackDays, last) else last
  }

  /** What an incremental run lists: the rows since the watermark, for orders also those of the lookback days before
      it, unless the watermark lies within two days of 2000, and none from before 2000. */
  lemma LookbackMeaning(src: Source, last: Time, end: Time, r: SourceRow)
    requires last >= FULL_SYNC_START
    ensures var day, days := 24 * 60 * 60 * 10_000_000, src.settings.lookbackDays;
            var reaches := src.m == Orders && days > 0 && last > FULL_SYNC_START + 2 * day;
            r in src.Listing(last, end) <==>
            r in src.rows && r.time < end && (r.time >= last || (reaches && r.time >= FULL_SYNC_START
                                                                 && r.time >= last - days * day))
  {
    WindowMembers(src.rows, WindowStart(src.m, src.settings, last), end, r);
  }

  lemma WindowStartBounds(m: SyncModule, s: Settings, last: Time)
    requires last >= FULL_SYNC_START
    ensures FULL_SYNC_START <= WindowStart(m, s, last) <= last
    ensures WindowStart(m, s, FULL_SYNC_START) == FULL_SYNC_START
  {
  }

  /** A source as the client sees it: the module's frozen table, queried through the window rules. */
  datatype Source = Source(m: SyncModule, settings: Settings, rows: seq<SourceRow>) {
    function Listing(last: Time, end: Time): seq<SourceRow> {
      Window(rows, WindowStart(m, settings, last), end)
    }

    function Count(): Counter {
      (last: Time, end: Time) => |Listing(last, end)|
    }

    function Pages(): WindowPager<SourceRow> {
      (last: Time, end: Time, offset: nat, n: nat) => Slice(Listing(last, end), offset, n)
    }

    function PlanOf(file: File, req: Request): Plan {
      MakePlan(true, file, req, Count())
    }

    function EnvFor(file: File, req: Request): Env<SourceRow> {
      EnvOf(m, PlanOf(file, req), req, Pages())
    }

    function WalkOf(file: File, req: Request): Walked<SourceRow> {
      Walk(EnvFor(file, req), 0, PlanOf(file, req).start, ConfiguredBatchSize(m, settings))
    }

    function RunOf(file: File, req: Request): Run<SourceRow> {
      RunOnce(m, true, settings, file, req, Count(), Pages())
    }
  }

  ghost function AcceptedRows<T(!new)>(sends: seq<Sent<T>>): set<T> {
    set i, r | 0 <= i < |sends| && IsEnqueued(sends, i) && r in sends[i].batch.rows :: r
  }

  lemma EnqueuedRowIsAccepted<T(!new)>(sends: seq<Sent<T>>, j: nat, r: T)
    requires IsEnqueued(sends, j) && r in sends[j].batch.rows
    ensures r in AcceptedRows(sends)
  {
  }

  datatype Event = Sync(req: Request) | Restart

  /** The stored file of the module, and every row that was ever in an accepted batch. */
  datatype State = State(file: File, accepted: set<SourceRow>)

  ghost function Step(src: Source, st: State, e: Event): State {
    match e
    case Sync(req) =>
      var run := src.RunOf(st.file, req);
      State(run.file, st.accepted + AcceptedRows(run.sends))
    case Restart => State(st.file.Purged(), st.accepted)
  }

  ghost function History(src: Source, st: State, events: seq<Event>): State
    decreases |events|
  {
    if events == [] then st else History(src, Step(src, st, events[0]), events[1..])
  }

  ghost predicate Covered(src: Source, st: State, before: Time) {
    forall r <- src.rows :: FULL_SYNC_START <= r.time < before ==> r in st.accepted
  }

  /** What every run keeps: rows before the watermark are accepted, and so is the part of the window
      that a checkpoint says was already sent. */
  ghost predicate Inv(src: Source, st: State) {
    var d := st.file.Load();
    && d.lastSyncTime >= FULL_SYNC_START
    && Covered(src, st, d.lastSyncTime)
    && (d.HasCheckpoint() ==>
          && d.resumeWindowEnd >= FULL_SYNC_START
          && var list := src.Listing(d.lastSyncTime, d.resumeWindowEnd);
             d.resumeOffset < |list| ==> forall i :: 0 <= i < d.resumeOffset ==> list[i] in st.accepted)
  }

  /** When a run advances the watermark although cancellation was seen at the head of its loop: all rows
      past the furthest page that reached the backend had been accepted before. */
  ghost predicate NothingLeftBehind(src: Source, st: State, req: Request) {
    var plan, w := src.PlanOf(st.file, req), src.WalkOf(st.file, req);
    var list := src.Listing(plan.last, plan.end);
    forall i :: Furthest(w.sends, plan.start) <= i < |list| ==> list[i] in st.accepted
  }

  /** The rows that the next run will skip at this run's checkpoint are accepted.  It will count them in its
      own listing, from the stored watermark to this run's window end; beyond that listing it skips none. */
  ghost predicate CheckpointFits(src: Source, st: State, req: Request) {
    var plan, w := src.PlanOf(st.file, req), src.WalkOf(st.file, req);
    var list := src.Listing(st.file.Load().lastSyncTime, plan.end);
    w.offset < |list| ==> forall i :: 0 <= i < w.offset ==> list[i] in st.accepted || list[i] in AcceptedRows(w.sends)
  }

  /** What a history must not contain: a clock behind 2000 or behind a stored window end, a run cancelled at
      the head of its loop that leaves rows behind, and a requested full run whose checkpoint does not fit. */
  ghost predicate Benign(src: Source, st: State, e: Event) {
    e.Sync? ==>
      var d, w, start := st.file.Load(), src.WalkOf(st.file, e.req), src.PlanOf(st.file, e.req).start;
      && e.req.now >= FULL_SYNC_START
      && (d.HasCheckpoint() ==> d.resumeWindowEnd <= e.req.now)
      && (w.exit == HeadCancelled && w.offset > start && e.req.disk.update ==> NothingLeftBehind(src, st, e.req))
      && (e.req.full && w.exit in {FetchFailed, SendFailed} && w.offset > 0 && e.req.disk.saveCheckpoint ==>
            CheckpointFits(src, st, e.req))
  }

  ghost predicate BenignHistory(src: Source, st: State, events: seq<Event>)
    decreases |events|
  {
    events == [] || (Benign(src, st, events[0]) && BenignHistory(src, Step(src, st, events[0]), events[1..]))
  }

  lemma CoveredListing(src: Source, st: State, last: Time, end: Time, upTo: Time)
    requires last >= FULL_SYNC_START && end <= upTo && Covered(src, st, upTo)
    ensures forall r <- src.Listing(last, end) :: r in st.accepted
  {
    WindowStartBounds(src.m, src.settings, last);
    forall r | r in src.Listing(last, end)
      ensures r in st.accepted
    {
      WindowMembers(src.rows, WindowStart(src.m, src.settings, last), end, r);
    }
  }

  lemma FrozenPages(src: Source, file: File, req: Request)
    ensures var plan := src.PlanOf(file, req);
            PagesOf(src.EnvFor(file, req).page, src.Listing(plan.last, plan.end))
  {
  }

  /** Every row up to the end of the furthest delivered page is accepted. */
  lemma ReachedRowIsAccepted(src: Source, file: File, req: Request, i: nat)
    requires src.PlanOf(file, req).start <= i < Furthest(src.WalkOf(file, req).sends, src.PlanOf(file, req).start)
    ensures var plan := src.PlanOf(file, req);
            var list := src.Listing(plan.last, plan.end);
            i < |list| && list[i] in AcceptedRows(src.WalkOf(file, req).sends)
  {
    var plan, sends := src.PlanOf(file, req), src.WalkOf(file, req).sends;
    var list, env, size := src.Listing(plan.last, plan.end), src.EnvFor(file, req),
        ConfiguredBatchSize(src.m, src.settings);
    FrozenPages(src, file, req);
    assert Reached(sends, i) by { ReachedIff(env, list, 0, plan.start, size, i); }
    var j: nat :| IsEnqueued(sends, j) && Covers(sends[j].batch, i);
    assert sends[j].batch.rows == Slice(list, sends[j].batch.offset, sends[j].batch.size) by {
      SendRows(env, list, 0, plan.start, size, sends[j]);
    }
    CoveredRow(list, sends, j, i);
  }

  lemma CoveredRow(list: seq<SourceRow>, sends: seq<Sent<SourceRow>>, j: nat, i: nat)
    requires IsEnqueued(sends, j) && Covers(sends[j].batch, i)
    requires sends[j].batch.rows == Slice(list, sends[j].batch.offset, sends[j].batch.size)
    ensures i < |list| && list[i] in AcceptedRows(sends)
  {
    var b := sends[j].batch;
    LongerSliceCovers(list, b.offset, b.size, b.size, i);
    EnqueuedRowIsAccepted(sends, j, b.rows[i - b.offset]);
  }

  /** A run passes on every row of its listing from its start to where it stopped. */
  lemma RunAcceptsWhatItPasses(src: Source, file: File, req: Request, i: nat)
    requires var plan, w := src.PlanOf(file, req), src.WalkOf(file, req);
             plan.start <= i < w.offset
    ensures var plan, w := src.PlanOf(file, req), src.WalkOf(file, req);
            var list := src.Listing(plan.last, plan.end);
            i < |list| && list[i] in AcceptedRows(w.sends)
  {
    var plan := src.PlanOf(file, req);
    var list, env := src.Listing(plan.last, plan.end), src.EnvFor(file, req);
    FrozenPages(src, file, req);
    PassedIsReached(env, list, 0, plan.start, ConfiguredBatchSize(src.m, src.settings), i);
    ReachedRowIsAccepted(src, file, req, i);
  }

  /** What a run skips at its start was accepted before. */
  lemma SkippedIsAccepted(src: Source, st: State, req: Request, i: nat)
    requires Inv(src, st)
    requires var plan := src.PlanOf(st.file, req); plan.count > 0 && i < plan.start
    ensures var plan := src.PlanOf(st.file, req);
            i < |src.Listing(plan.last, plan.end)| && src.Listing(plan.last, plan.end)[i] in st.accepted
  {
  }

  /** Together with what was accepted before, a run covers its listing up to where it stopped. */
  lemma RunCoversPrefix(src: Source, st: State, req: Request, i: nat)
    requires Inv(src, st)
    requires var plan := src.PlanOf(st.file, req);
             plan.count > 0 && i < src.WalkOf(st.file, req).offset && i < |src.Listing(plan.last, plan.end)|
    ensures var plan := src.PlanOf(st.file, req);
            src.Listing(plan.last, plan.end)[i] in Step(src, st, Sync(req)).accepted
  {
    var plan, w := src.PlanOf(st.file, req), src.WalkOf(st.file, req);
    assert src.RunOf(st.file, req).sends == w.sends;
    if i >= plan.start {
      RunAcceptsWhatItPasses(src, st.file, req, i);
    } else {
      SkippedIsAccepted(src, st, req, i);
    }
  }

  /** After a run over the whole of its listing, every row before the window end is accepted. */
  lemma WholeListingCovers(src: Source, st: State, st': State, last: Time, end: Time)
    requires last >= FULL_SYNC_START && st.accepted <= st'.accepted
    requires Covered(src, st, last) || last == FULL_SYNC_START
    requires forall r <- src.Listing(last, end) :: r in st'.accepted
    ensures Covered(src, st', end)
  {
    WindowStartBounds(src.m, src.settings, last);
    forall r | r in src.rows && FULL_SYNC_START <= r.time < end
      ensures r in st'.accepted
    {
      WindowMembers(src.rows, WindowStart(src.m, src.settings, last), end, r);
    }
  }

  /** `file` itself, or `file` with its checkpoint dropped. */
  ghost predicate SameOrCleared(file: File, file': File) {
    var d, d' := file.Load(), file'.Load();
    && d'.lastSyncTime == d.lastSyncTime
    && (d'.HasCheckpoint() ==> d'.resumeOffset == d.resumeOffset && d'.resumeWindowEnd == d.resumeWindowEnd)
  }

  lemma ClearedKeepsInv(src: Source, st: State, st': State)
    requires Inv(src, st) && SameOrCleared(st.file, st'.file) && st.accepted <= st'.accepted
    ensures Inv(src, st')
  {
  }

  /** Moving the watermark to a time before which everything is accepted is safe even when dropping
      the old checkpoint was lost. */
  lemma AdvancedKeepsInv(src: Source, st: State, st': State, cleared: File, end: Time, rows: int, written: bool)
    requires Inv(src, st) && SameOrCleared(st.file, cleared) && st.accepted <= st'.accepted
    requires st'.file == cleared.Updated(end, rows, written)
    requires end >= FULL_SYNC_START && Covered(src, st', end)
    requires st.file.Load().HasCheckpoint() ==> st.file.Load().resumeWindowEnd <= end
    ensures Inv(src, st')
  {
    var d' := st'.file.Load();
    if written && d'.HasCheckpoint() {
      CoveredListing(src, st', end, d'.resumeWindowEnd, end);
    }
  }

  lemma CheckpointKeepsInv(src: Source, st: State, req: Request, ready: File, offset: nat, written: bool)
    requires Inv(src, st) && SameOrCleared(st.file, ready)
    requires var plan, w := src.PlanOf(st.file, req), src.WalkOf(st.file, req);
             && plan.count > 0 && offset == w.offset && plan.end >= FULL_SYNC_START
             && (offset == 0 || !written || plan.last == st.file.Load().lastSyncTime || CheckpointFits(src, st, req))
    requires Step(src, st, Sync(req)).file == ready.WithCheckpoint(offset, src.PlanOf(st.file, req).end, written)
    ensures Inv(src, Step(src, st, Sync(req)))
  {
    var plan, w, st' := src.PlanOf(st.file, req), src.WalkOf(st.file, req), Step(src, st, Sync(req));
    var list := src.Listing(plan.last, plan.end);
    assert src.RunOf(st.file, req).sends == w.sends;
    if written && offset > 0 && plan.last == st.file.Load().lastSyncTime {
      forall i | 0 <= i < offset && i < |list|
        ensures list[i] in st'.accepted
      {
        RunCoversPrefix(src, st, req, i);
      }
    } else if !written {
      ClearedKeepsInv(src, st, st');
    }
  }

  /** A run that reached the end of its listing has everything before its window end accepted. */
  lemma CompletedRunCovers(src: Source, st: State, req: Request)
    requires Inv(src, st)
    requires var plan, w := src.PlanOf(st.file, req), src.WalkOf(st.file, req);
             plan.count == 0 || w.exit in {Finished, EmptyPage}
    requires req.now >= FULL_SYNC_START
    ensures Covered(src, Step(src, st, Sync(req)), src.PlanOf(st.file, req).end)
  {
    var plan, w, st' := src.PlanOf(st.file, req), src.WalkOf(st.file, req), Step(src, st, Sync(req));
    var list, env := src.Listing(plan.last, plan.end), src.EnvFor(st.file, req);
    if plan.count > 0 {
      FrozenPages(src, st.file, req);
      CompletedRunPassesEverything(env, list, 0, plan.start, ConfiguredBatchSize(src.m, src.settings));
      forall i | 0 <= i < |list|
        ensures list[i] in st'.accepted
      {
        RunCoversPrefix(src, st, req, i);
      }
    }
    WholeListingCovers(src, st, st', plan.last, plan.end);
  }

  /** So has a run that left nothing behind when it was cancelled. */
  lemma CancelledRunCovers(src: Source, st: State, req: Request)
    requires Inv(src, st) && NothingLeftBehind(src, st, req) && req.now >= FULL_SYNC_START
    requires src.PlanOf(st.file, req).count > 0
    ensures Covered(src, Step(src, st, Sync(req)), src.PlanOf(st.file, req).end)
  {
    var plan, w, st' := src.PlanOf(st.file, req), src.WalkOf(st.file, req), Step(src, st, Sync(req));
    var list := src.Listing(plan.last, plan.end);
    assert src.RunOf(st.file, req).sends == w.sends;
    forall i | 0 <= i < |list|
      ensures list[i] in st'.accepted
    {
      if i < plan.start {
        SkippedIsAccepted(src, st, req, i);
      } else if i < Furthest(w.sends, plan.start) {
        ReachedRowIsAccepted(src, st.file, req, i);
      }
    }
    WholeListingCovers(src, st, st', plan.last, plan.end);
  }

  lemma RunKeepsInv(src: Source, st: State, req: Request)
    requires Inv(src, st) && Benign(src, st, Sync(req))
    ensures Inv(src, Step(src, st, Sync(req)))
  {
    var plan, w, st' := src.PlanOf(st.file, req), src.WalkOf(st.file, req), Step(src, st, Sync(req));
    var ready := if plan.stale then st.file.WithoutCheckpoint(req.disk.clearStale) else st.file;
    var cleared := ready.WithoutCheckpoint(req.disk.clearCheckpoint);
    if plan.count == 0 {
      CompletedRunCovers(src, st, req);
      AdvancedKeepsInv(src, st, st', cleared, plan.end, 0, req.disk.update);
    } else if w.exit in {FetchFailed, SendFailed} {
      CheckpointKeepsInv(src, st, req, ready, w.offset, req.disk.saveCheckpoint);
    } else if w.exit != Aborted && w.offset > plan.start {
      if w.exit != HeadCancelled {
        CompletedRunCovers(src, st, req);
      } else if req.disk.update {
        CancelledRunCovers(src, st, req);
      } else {
        ClearedKeepsInv(src, st, st');
        return;
      }
      var total := w.offset - plan.start + if plan.resumed then plan.start else 0;
      AdvancedKeepsInv(src, st, st', cleared, plan.end, total, req.disk.update);
    } else {
      ClearedKeepsInv(src, st, st');
    }
  }

  /** Over any benign history (runs that succeed, fail, resume, shrink their chunks,
      lose acknowledgements, stop anywhere, lose writes, and restarts in between), every source row
      timestamped before the stored watermark has been accepted. */
  lemma {:induction false} WatermarkCoverage(src: Source, st: State, events: seq<Event>)
    requires Inv(src, st) && BenignHistory(src, st, events)
    ensures var st' := History(src, st, events);
            Inv(src, st') && Covered(src, st', st'.file.Load().lastSyncTime)
    decreases |events|
  {
    if events != [] {
      var next := Step(src, st, events[0]);
      match events[0] {
        case Sync(req) => RunKeepsInv(src, st, req);
        case Restart => assert Inv(src, next);
      }
      WatermarkCoverage(src, next, events[1..]);
    }
  }

  /** In particular from a client without a file and a backend that has accepted nothing. */
  lemma CoverageFromFreshStart(src: Source, events: seq<Event>)
    requires BenignHistory(src, State(Missing, {}), events)
    ensures var st := History(src, State(Missing, {}), events); Covered(src, st, st.file.Load().lastSyncTime)
  {
    WatermarkCoverage(src, State(Missing, {}), events);
  }
}
