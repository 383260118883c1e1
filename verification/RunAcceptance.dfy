/** The queue takes in a run: each delivered batch is posted once or several times, and every job is accepted
    exactly once, in between the work of all tenants and modules. */
module RunAcceptance {
  import opened Common
  import opened Sequences
  import opened JobQueue
  import opened QueueHistory
  import opened TenantIsolation
  import opened Pipeline
  import opened Paging
  import opened PagingProperties
  import opened RunBatches
  import Inv = Inventory
  import Props = InventoryProperties
  import Snap = InventorySnapshot

  // ---------------------------------------------------------------------------------------------
  // What is taken in
  // ---------------------------------------------------------------------------------------------

  /** The backend takes in an inventory batch of the tenant: it answers accepted or duplicate, not busy. */
  ghost predicate TakesIn(s: Sys, cfg: Config, step: Action, t: Tenant) {
    && step.Offer? && step.job.id.tenant == t && step.job.body.InventoryBody?
    && !Enqueue(s.w.q, cfg.maxDepth, step.job).1.Busy?
  }

  ghost function Intake(s: Sys, cfg: Config, step: Action, t: Tenant): seq<Job<Body>> {
    if TakesIn(s, cfg, step, t) then [step.job] else []
  }

  ghost function TakenIn(s: Sys, cfg: Config, steps: seq<Action>, t: Tenant): seq<Job<Body>>
    decreases |steps|
  {
    if steps == [] then []
    else Intake(s, cfg, steps[0], t) + TakenIn(Advance(s, cfg, steps[0]), cfg, steps[1..], t)
  }

  ghost predicate CarriesAttempt(job: Job<Body>, info: RunInfo, s: Sent<Inv.StockRow>) {
    s.delivered && job.body == InventoryBody(info.Address(s.batch))
  }

  ghost predicate RepeatsEarlier(job: Job<Body>, info: RunInfo, sends: Attempts, k: nat)
    requires k <= |sends|
  {
    exists i :: 0 <= i < k && CarriesAttempt(job, info, sends[i])
  }

  /** The jobs are the posts of the attempts from number `k` on: those delivered come in order, and any of them
      may be posted again later, as the HTTP client does when it gets no answer. */
  ghost predicate Posts(jobs: seq<Job<Body>>, info: RunInfo, sends: Attempts, k: nat)
    requires k <= |sends|
    decreases |jobs| + |sends| - k
  {
    || (jobs == [] && k == |sends|)
    || (k < |sends| && !sends[k].delivered && Posts(jobs, info, sends, k + 1))
    || (jobs != [] && RepeatsEarlier(jobs[0], info, sends, k) && Posts(jobs[1..], info, sends, k))
    || (jobs != [] && k < |sends| && CarriesAttempt(jobs[0], info, sends[k]) && Posts(jobs[1..], info, sends, k + 1))
  }

  // ---------------------------------------------------------------------------------------------
  // Known ids
  // ---------------------------------------------------------------------------------------------

  lemma FewerJobsStayKnown(q: QueueState<Body>, q': QueueState<Body>)
    requires StatusKnown(q) && Unfinished(q') <= Unfinished(q) && q.status.Keys <= q'.status.Keys
    ensures StatusKnown(q')
  {
  }

  lemma TakeKeepsStatusKnown(q: QueueState<Body>)
    requires Good(q) && StatusKnown(q)
    ensures StatusKnown(StartNext(q).0) && StartNext(q).0.status.Keys == q.status.Keys
  {
    StartShrinks(q);
    if StartNext(q).1.Some? {
      var before, after := StartMovesOneJob(q);
      var e := Encoded(StartNext(q).1.value);
      assert Unfinished(StartNext(q).0) == Unfinished(q);
      assert e in Unfinished(q) by { assert (before + [e] + after)[|before|] == e; }
    }
  }

  lemma OfferKeepsStatusKnown(q: QueueState<Body>, maxDepth: nat, job: Job<Body>)
    requires StatusKnown(q)
    ensures StatusKnown(Enqueue(q, maxDepth, job).0)
    ensures forall id <- Enqueue(q, maxDepth, job).0.status ::
              id in q.status || (id == job.id && !Enqueue(q, maxDepth, job).1.Busy?)
  {
    var (q', answer) := Enqueue(q, maxDepth, job);
    if answer.Accepted? {
      assert Unfinished(q') == Unfinished(q) + multiset{Encoded(job)};
    }
  }

  lemma SettleKeepsStatusKnown(q: QueueState<Body>, job: Job<Body>, ok: bool)
    requires StatusKnown(q) && Encoded(job) in q.processing
    ensures StatusKnown(Settle(q, job, ok)) && Settle(q, job, ok).status.Keys == q.status.Keys
  {
    assert Encoded(job) in Unfinished(q);
    FewerJobsStayKnown(q, Settle(q, job, ok));
  }

  lemma ProcessKeepsStatusKnown(s: Sys, cfg: Config, job: Job<Body>, commits: bool)
    requires StatusKnown(s.w.q)
    ensures var q' := Advance(s, cfg, Process(job, commits)).w.q;
            StatusKnown(q') && q'.status.Keys == s.w.q.status.Keys
  {
    var q, q' := s.w.q, Advance(s, cfg, Process(job, commits)).w.q;
    if Encoded(job) in q.processing {
      SettleKeepsStatusKnown(q, job, IngestBody(s.db, cfg.ingest, job.body, commits).1 == Inv.Committed);
    }
  }

  lemma FinishKeepsStatusKnown(s: Sys, cfg: Config, job: Job<Body>)
    requires StatusKnown(s.w.q)
    ensures var q' := Advance(s, cfg, Finish(job)).w.q;
            StatusKnown(q') && q'.status.Keys == s.w.q.status.Keys
  {
    if Encoded(job) in s.w.q.processing {
      ReleaseShrinks(s.w.q, job);
      FewerJobsStayKnown(s.w.q, Release(s.w.q, job));
    }
  }

  /** A step makes no job id known except the one it accepts. */
  lemma AdvanceKeepsStatusKnown(s: Sys, cfg: Config, step: Action)
    requires Good(s.w.q) && StatusKnown(s.w.q)
    ensures StatusKnown(Advance(s, cfg, step).w.q)
    ensures forall id <- Advance(s, cfg, step).w.q.status ::
              id in s.w.q.status || (step.Offer? && id == step.job.id
                                     && !Enqueue(s.w.q, cfg.maxDepth, step.job).1.Busy?)
  {
    match step
    case Offer(job) => OfferKeepsStatusKnown(s.w.q, cfg.maxDepth, job);
    case Take => TakeKeepsStatusKnown(s.w.q);
    case Process(job, commits) => ProcessKeepsStatusKnown(s, cfg, job, commits);
    case Finish(job) => FinishKeepsStatusKnown(s, cfg, job);
  }

  function IdOf(info: RunInfo, index: nat): JobId {
    JobId(info.tenant, INVENTORY_MODULE, info.run, index)
  }

  predicate OfRun(id: JobId, info: RunInfo) {
    id == IdOf(info, id.index)
  }

  ghost predicate DeliveredBefore(sends: Attempts, k: nat, index: nat)
    requires k <= |sends|
  {
    exists i :: 0 <= i < k && sends[i].delivered && sends[i].batch.index == index
  }

  /** The ids of the run that the queue knows are those of the attempts delivered so far, and none of them is
      marked failed. */
  ghost predicate KnowsAttempts(q: QueueState<Body>, info: RunInfo, sends: Attempts, k: nat)
    requires k <= |sends|
  {
    && (forall id <- q.status :: OfRun(id, info) ==> q.status[id] != Failed)
    && (forall index: nat :: IdOf(info, index) in q.status <==> DeliveredBefore(sends, k, index))
  }

  /** After `k` attempts of the run: the tenant's accepted batches are the earlier ones and those enqueued by
      the run. */
  ghost predicate InRun(s: Sys, cfg: Config, owner: Inv.RunId -> Tenant, start: Inv.Db, info: RunInfo,
                        earlier: seq<Inv.Batch>, sends: Attempts, k: nat)
    requires k <= |sends|
  {
    && Ready(s, cfg, owner, start, info.tenant) && StatusKnown(s.w.q)
    && KnowsAttempts(s.w.q, info, sends, k)
    && Batches(OfTenant(s.w.accepted, info.tenant)) == earlier + Kept(info, sends, 0, k)
  }

  lemma KeptNext(info: RunInfo, sends: Attempts, k: nat)
    requires k < |sends|
    ensures Kept(info, sends, 0, k + 1) == Kept(info, sends, 0, k) + KeptAt(info, sends, k)
  {
    KeptConcat(info, sends, 0, k, k + 1);
    assert Kept(info, sends, k, k + 1) == KeptAt(info, sends, k) + [];
  }

  lemma EnqueuedIffFirst(sends: Attempts, k: nat)
    requires k < |sends| && sends[k].delivered
    ensures IsEnqueued(sends, k) <==> !DeliveredBefore(sends, k, sends[k].batch.index)
    ensures forall index: nat :: DeliveredBefore(sends, k + 1, index)
              <==> DeliveredBefore(sends, k, index) || index == sends[k].batch.index
  {
    forall index: nat
      ensures DeliveredBefore(sends, k + 1, index)
              <==> DeliveredBefore(sends, k, index) || index == sends[k].batch.index
    {
      if index == sends[k].batch.index {
        assert sends[k].delivered && sends[k].batch.index == index;
      }
    }
  }

  lemma SkippedAttempt(s: Sys, cfg: Config, owner: Inv.RunId -> Tenant, start: Inv.Db, info: RunInfo,
                       earlier: seq<Inv.Batch>, sends: Attempts, k: nat)
    requires k < |sends| && !sends[k].delivered && InRun(s, cfg, owner, start, info, earlier, sends, k)
    ensures InRun(s, cfg, owner, start, info, earlier, sends, k + 1)
  {
    KeptNext(info, sends, k);
    assert Kept(info, sends, 0, k) + [] == Kept(info, sends, 0, k);
    forall index: nat
      ensures DeliveredBefore(sends, k + 1, index) <==> DeliveredBefore(sends, k, index)
    {
    }
  }

  // ---------------------------------------------------------------------------------------------
  // The run's batches commit
  // ---------------------------------------------------------------------------------------------

  lemma AtSamePlace(done: seq<Inv.Batch>, b: Inv.Batch, waiting: seq<Inv.Batch>, earlier: seq<Inv.Batch>,
                    kept: seq<Inv.Batch>)
    returns (i: nat)
    requires done + [b] + waiting == earlier + kept && forall e <- earlier :: e.run != b.run
    ensures i < |kept| && kept[i] == b && done == earlier + kept[..i]
  {
    var all := earlier + kept;
    assert all[|done|] == b;
    assert |done| < |earlier| ==> b in earlier;
    i := |done| - |earlier|;
    assert done == all[..|done|];
  }

  /** When a job of the tenant is ingested, the jobs accepted before it have been, and no other. */
  lemma NextInLine(s: Sys, cfg: Config, owner: Inv.RunId -> Tenant, start: Inv.Db, t: Tenant, job: Job<Body>)
    requires Ready(s, cfg, owner, start, t) && job.id.tenant == t && job.body.InventoryBody?
    requires Encoded(job) in s.w.q.processing && t !in s.ran
    ensures Batches(OfTenant(s.w.accepted, t))
            == Batches(OfTenant(s.ingested, t)) + [job.body.batch] + Batches(OfTenant(s.w.q.queue, t))
  {
    OnlyJobInProcessing(s.w.q, job);
    var done, waiting := OfTenant(s.ingested, t), OfTenant(s.w.q.queue, t);
    assert done == OfTenant(s.w.finished, t) by { assert OfTenant(s.w.finished, t) + [] == OfTenant(s.w.finished, t); }
    BatchesConcat(done + [Encoded(job)], waiting);
    BatchesConcat(done, [Encoded(job)]);
    BatchesOne(job);
  }

  lemma RunJobCommits(s: Sys, cfg: Config, owner: Inv.RunId -> Tenant, start: Inv.Db, info: RunInfo,
                      earlier: seq<Inv.Batch>, sends: Attempts, k: nat, job: Job<Body>)
    requires k <= |sends| && InRun(s, cfg, owner, start, info, earlier, sends, k)
    requires Encoded(job) in s.w.q.processing && job.id.tenant !in s.ran && OfRun(job.id, info)
    requires forall e <- earlier :: e.run != info.run
    requires Snap.AllCommit(Props.IngestAll(View(start, info.tenant), cfg.ingest, Snap.Commits(earlier)), cfg.ingest,
                            Kept(info, sends, 0, |sends|))
    ensures IngestBody(s.db, cfg.ingest, job.body, true).1 == Inv.Committed
  {
    var t, all := info.tenant, Kept(info, sends, 0, |sends|);
    assert WellAddressed(job, owner);
    var b, done := job.body.batch, Batches(OfTenant(s.ingested, t));
    NextInLine(s, cfg, owner, start, t, job);
    var i := AtSamePlace(done, b, Batches(OfTenant(s.w.q.queue, t)), earlier, Kept(info, sends, 0, k));
    KeptConcat(info, sends, 0, k, |sends|);
    assert all[i] == b && all[..i] == Kept(info, sends, 0, k)[..i];
    Snap.IngestBoth(View(start, t), cfg.ingest, earlier, all[..i]);
    assert Snap.CommitsNext(Props.IngestAll(View(start, t), cfg.ingest, Snap.Commits(earlier)), cfg.ingest, all, i);
    IngestIsLocal(s.db, cfg.ingest, Props.Arrival(b, true), owner);
  }

  // ---------------------------------------------------------------------------------------------
  // One step
  // ---------------------------------------------------------------------------------------------

  ghost predicate Hypotheses(cfg: Config, start: Inv.Db, info: RunInfo, earlier: seq<Inv.Batch>, sends: Attempts) {
    && (forall e <- earlier :: e.run != info.run)
    && Snap.AllCommit(Props.IngestAll(View(start, info.tenant), cfg.ingest, Snap.Commits(earlier)), cfg.ingest,
                      Kept(info, sends, 0, |sends|))
  }

  /** The statuses of the run's jobs do not change, except that they may become another good one. */
  ghost predicate SameKnowledge(q: QueueState<Body>, q': QueueState<Body>, info: RunInfo) {
    && (forall id :: OfRun(id, info) ==> (id in q.status <==> id in q'.status))
    && (forall id :: OfRun(id, info) && id in q.status && q.status[id] != Failed ==> q'.status[id] != Failed)
  }

  lemma KnowledgeStays(q: QueueState<Body>, q': QueueState<Body>, info: RunInfo, sends: Attempts, k: nat)
    requires k <= |sends| && KnowsAttempts(q, info, sends, k) && SameKnowledge(q, q', info)
    ensures KnowsAttempts(q', info, sends, k)
  {
    forall index: nat
      ensures IdOf(info, index) in q'.status <==> DeliveredBefore(sends, k, index)
    {
      assert OfRun(IdOf(info, index), info);
    }
  }

  lemma TakeKnowledge(q: QueueState<Body>, info: RunInfo)
    requires Good(q) && StatusKnown(q)
    ensures SameKnowledge(q, StartNext(q).0, info)
  {
    TakeKeepsStatusKnown(q);
    StartShrinks(q);
    if StartNext(q).1.Some? {
      var before, after := StartMovesOneJob(q);
    }
  }

  lemma OfferKnowledge(s: Sys, cfg: Config, job: Job<Body>, owner: Inv.RunId -> Tenant, info: RunInfo)
    requires WellAddressed(job, owner) && !TakesIn(s, cfg, Offer(job), info.tenant)
    ensures SameKnowledge(s.w.q, Advance(s, cfg, Offer(job)).w.q, info)
  {
  }

  lemma OfferBatches(s: Sys, cfg: Config, job: Job<Body>, t: Tenant)
    ensures Batches(OfTenant(Advance(s, cfg, Offer(job)).w.accepted, t))
            == Batches(OfTenant(s.w.accepted, t))
               + if Enqueue(s.w.q, cfg.maxDepth, job).1.Accepted? && job.id.tenant == t && job.body.InventoryBody?
                 then [job.body.batch] else []
  {
    var e, before := Encoded(job), OfTenant(s.w.accepted, t);
    OfTenantConcat(s.w.accepted, [e], t);
    OfTenantOne(e, t);
    BatchesConcat(before, OfTenant([e], t));
    BatchesOne(job);
    assert Batches(before) + [] == Batches(before);
  }

  lemma SettleKnowledge(q: QueueState<Body>, job: Job<Body>, ok: bool, info: RunInfo)
    requires Encoded(job) in q.processing && StatusKnown(q) && (OfRun(job.id, info) ==> ok)
    ensures SameKnowledge(q, Settle(q, job, ok), info)
  {
    assert Encoded(job) in Unfinished(q);
  }

  lemma ProcessedQueue(s: Sys, cfg: Config, job: Job<Body>, commits: bool)
    ensures Advance(s, cfg, Process(job, commits)).w.q ==
            if Encoded(job) !in s.w.q.processing || job.id.tenant in s.ran then s.w.q
            else Settle(s.w.q, job, IngestBody(s.db, cfg.ingest, job.body, commits).1 == Inv.Committed)
  {
  }

  lemma ProcessKnowledge(s: Sys, cfg: Config, owner: Inv.RunId -> Tenant, start: Inv.Db, info: RunInfo,
                         earlier: seq<Inv.Batch>, sends: Attempts, k: nat, job: Job<Body>, commits: bool)
    requires k <= |sends| && InRun(s, cfg, owner, start, info, earlier, sends, k)
    requires Hypotheses(cfg, start, info, earlier, sends)
    requires Commits(Process(job, commits), info.tenant)
    ensures SameKnowledge(s.w.q, Advance(s, cfg, Process(job, commits)).w.q, info)
  {
    ProcessedQueue(s, cfg, job, commits);
    if Encoded(job) in s.w.q.processing && job.id.tenant !in s.ran {
      var ok := IngestBody(s.db, cfg.ingest, job.body, commits).1 == Inv.Committed;
      assert OfRun(job.id, info) ==> ok by {
        if OfRun(job.id, info) {
          RunJobCommits(s, cfg, owner, start, info, earlier, sends, k, job);
        }
      }
      SettleKnowledge(s.w.q, job, ok, info);
    }
  }

  lemma OtherStepKnowledge(s: Sys, cfg: Config, step: Action, owner: Inv.RunId -> Tenant, start: Inv.Db, info: RunInfo,
                           earlier: seq<Inv.Batch>, sends: Attempts, k: nat)
    requires k <= |sends| && InRun(s, cfg, owner, start, info, earlier, sends, k)
    requires Hypotheses(cfg, start, info, earlier, sends)
    requires !TakesIn(s, cfg, step, info.tenant) && (step.Offer? ==> WellAddressed(step.job, owner))
    requires Commits(step, info.tenant)
    ensures SameKnowledge(s.w.q, Advance(s, cfg, step).w.q, info)
  {
    match step
    case Offer(job) => OfferKnowledge(s, cfg, job, owner, info);
    case Take => TakeKnowledge(s.w.q, info);
    case Process(job, commits) => ProcessKnowledge(s, cfg, owner, start, info, earlier, sends, k, job, commits);
    case Finish(job) => FinishKnowledge(s, cfg, job, info);
  }

  lemma FinishKnowledge(s: Sys, cfg: Config, job: Job<Body>, info: RunInfo)
    ensures SameKnowledge(s.w.q, Advance(s, cfg, Finish(job)).w.q, info)
  {
  }

  lemma OtherStepBatches(s: Sys, cfg: Config, step: Action, t: Tenant)
    requires !TakesIn(s, cfg, step, t)
    ensures Batches(OfTenant(Advance(s, cfg, step).w.accepted, t)) == Batches(OfTenant(s.w.accepted, t))
  {
    if step.Offer? {
      OfferBatches(s, cfg, step.job, t);
    }
  }

  /** A step that takes in nothing of the tenant's inventory. */
  lemma OtherStep(s: Sys, cfg: Config, step: Action, owner: Inv.RunId -> Tenant, start: Inv.Db, info: RunInfo,
                  earlier: seq<Inv.Batch>, sends: Attempts, k: nat)
    requires k <= |sends| && InRun(s, cfg, owner, start, info, earlier, sends, k)
    requires Hypotheses(cfg, start, info, earlier, sends)
    requires !TakesIn(s, cfg, step, info.tenant) && (step.Offer? ==> WellAddressed(step.job, owner))
    requires Commits(step, info.tenant)
    ensures InRun(Advance(s, cfg, step), cfg, owner, start, info, earlier, sends, k)
  {
    AdvanceKeepsReady(s, cfg, step, owner, start, info.tenant);
    assert StatusKnown(Advance(s, cfg, step).w.q) by { AdvanceKeepsStatusKnown(s, cfg, step); }
    assert KnowsAttempts(Advance(s, cfg, step).w.q, info, sends, k) by {
      OtherStepKnowledge(s, cfg, step, owner, start, info, earlier, sends, k);
      KnowledgeStays(s.w.q, Advance(s, cfg, step).w.q, info, sends, k);
    }
    OtherStepBatches(s, cfg, step, info.tenant);
  }

  /** A batch posted again is answered as a duplicate. */
  lemma RepeatedPost(s: Sys, cfg: Config, step: Action, owner: Inv.RunId -> Tenant, start: Inv.Db, info: RunInfo,
                     earlier: seq<Inv.Batch>, sends: Attempts, k: nat)
    requires k <= |sends| && InRun(s, cfg, owner, start, info, earlier, sends, k)
    requires step.Offer? && WellAddressed(step.job, owner) && RepeatsEarlier(step.job, info, sends, k)
    ensures Advance(s, cfg, step) == s
  {
    var i :| 0 <= i < k && CarriesAttempt(step.job, info, sends[i]);
    var index := sends[i].batch.index;
    assert step.job.id == IdOf(info, index) && OfRun(step.job.id, info);
    assert DeliveredBefore(sends, k, index);
  }

  lemma FirstPostKnowledge(q: QueueState<Body>, maxDepth: nat, job: Job<Body>, info: RunInfo, sends: Attempts, k: nat)
    requires k < |sends| && KnowsAttempts(q, info, sends, k) && sends[k].delivered
    requires job.id == IdOf(info, sends[k].batch.index)
    requires !Enqueue(q, maxDepth, job).1.Busy?
    ensures KnowsAttempts(Enqueue(q, maxDepth, job).0, info, sends, k + 1)
    ensures Enqueue(q, maxDepth, job).1.Accepted? <==> IsEnqueued(sends, k)
  {
    var q', index := Enqueue(q, maxDepth, job).0, sends[k].batch.index;
    EnqueuedIffFirst(sends, k);
    assert OfRun(job.id, info) && (IdOf(info, index) in q.status <==> DeliveredBefore(sends, k, index));
    forall x: nat
      ensures IdOf(info, x) in q'.status <==> DeliveredBefore(sends, k + 1, x)
    {
      assert IdOf(info, x) in q.status <==> DeliveredBefore(sends, k, x);
    }
  }

  /** The first post of an attempt is accepted exactly when the attempt is enqueued. */
  lemma FirstPost(s: Sys, cfg: Config, step: Action, owner: Inv.RunId -> Tenant, start: Inv.Db, info: RunInfo,
                  earlier: seq<Inv.Batch>, sends: Attempts, k: nat)
    requires k < |sends| && InRun(s, cfg, owner, start, info, earlier, sends, k)
    requires TakesIn(s, cfg, step, info.tenant) && WellAddressed(step.job, owner)
    requires CarriesAttempt(step.job, info, sends[k])
    ensures InRun(Advance(s, cfg, step), cfg, owner, start, info, earlier, sends, k + 1)
  {
    FirstPostKnowledge(s.w.q, cfg.maxDepth, step.job, info, sends, k);
    AdvanceKeepsReady(s, cfg, step, owner, start, info.tenant);
    assert StatusKnown(Advance(s, cfg, step).w.q) by { AdvanceKeepsStatusKnown(s, cfg, step); }
    assert Batches(OfTenant(Advance(s, cfg, step).w.accepted, info.tenant))
        == earlier + Kept(info, sends, 0, k + 1) by {
      OfferBatches(s, cfg, step.job, info.tenant);
      KeptNext(info, sends, k);
      ConcatAssoc(earlier, Kept(info, sends, 0, k), KeptAt(info, sends, k));
    }
  }

  lemma TakenInNext(s: Sys, cfg: Config, steps: seq<Action>, t: Tenant)
    requires steps != []
    ensures var later := TakenIn(Advance(s, cfg, steps[0]), cfg, steps[1..], t);
            TakenIn(s, cfg, steps, t) == if TakesIn(s, cfg, steps[0], t) then [steps[0].job] + later else later
  {
  }

  /** An attempt that was not delivered can be left behind. */
  ghost predicate CanSkip(jobs: seq<Job<Body>>, info: RunInfo, sends: Attempts, k: nat) {
    k < |sends| && !sends[k].delivered && Posts(jobs, info, sends, k + 1)
  }

  /** Otherwise the next job repeats an earlier attempt, or it is the first post of the next one. */
  lemma NextPost(job: Job<Body>, later: seq<Job<Body>>, info: RunInfo, sends: Attempts, k: nat) returns (repeats: bool)
    requires k <= |sends| && Posts([job] + later, info, sends, k) && !CanSkip([job] + later, info, sends, k)
    ensures repeats ==> RepeatsEarlier(job, info, sends, k) && Posts(later, info, sends, k)
    ensures !repeats ==> k < |sends| && CarriesAttempt(job, info, sends[k]) && Posts(later, info, sends, k + 1)
  {
    assert ([job] + later)[1..] == later;
    repeats := RepeatsEarlier(job, info, sends, k) && Posts(later, info, sends, k);
  }

  lemma NoMorePosts(info: RunInfo, sends: Attempts, k: nat)
    requires k <= |sends| && Posts([], info, sends, k) && !CanSkip([], info, sends, k)
    ensures k == |sends|
  {
  }

  /** A step that takes in a job of the run, from attempt `k` to attempt `next`. */
  lemma TakenStep(s: Sys, cfg: Config, step: Action, later: seq<Job<Body>>, owner: Inv.RunId -> Tenant, start: Inv.Db,
                  info: RunInfo, earlier: seq<Inv.Batch>, sends: Attempts, k: nat) returns (next: nat)
    requires k <= |sends| && InRun(s, cfg, owner, start, info, earlier, sends, k)
    requires TakesIn(s, cfg, step, info.tenant) && WellAddressed(step.job, owner)
    requires Posts([step.job] + later, info, sends, k) && !CanSkip([step.job] + later, info, sends, k)
    ensures next <= |sends| && Posts(later, info, sends, next)
    ensures InRun(Advance(s, cfg, step), cfg, owner, start, info, earlier, sends, next)
  {
    var repeats := NextPost(step.job, later, info, sends, k);
    next := if repeats then k else k + 1;
    if repeats {
      RepeatedPost(s, cfg, step, owner, start, info, earlier, sends, k);
    } else {
      FirstPost(s, cfg, step, owner, start, info, earlier, sends, k);
    }
  }

  /** The rest of the history posts the attempts from number `k` on. */
  ghost predicate Midway(s: Sys, cfg: Config, steps: seq<Action>, owner: Inv.RunId -> Tenant, start: Inv.Db,
                         info: RunInfo, earlier: seq<Inv.Batch>, sends: Attempts, k: nat) {
    && k <= |sends| && InRun(s, cfg, owner, start, info, earlier, sends, k)
    && Hypotheses(cfg, start, info, earlier, sends) && Orderly(steps, owner, info.tenant)
    && Posts(TakenIn(s, cfg, steps, info.tenant), info, sends, k)
  }

  lemma SkipAttempt(s: Sys, cfg: Config, steps: seq<Action>, owner: Inv.RunId -> Tenant, start: Inv.Db,
                    info: RunInfo, earlier: seq<Inv.Batch>, sends: Attempts, k: nat)
    requires Midway(s, cfg, steps, owner, start, info, earlier, sends, k)
    requires CanSkip(TakenIn(s, cfg, steps, info.tenant), info, sends, k)
    ensures Midway(s, cfg, steps, owner, start, info, earlier, sends, k + 1)
  {
    SkippedAttempt(s, cfg, owner, start, info, earlier, sends, k);
  }

  lemma TakeStep(s: Sys, cfg: Config, steps: seq<Action>, owner: Inv.RunId -> Tenant, start: Inv.Db,
                 info: RunInfo, earlier: seq<Inv.Batch>, sends: Attempts, k: nat) returns (next: nat)
    requires Midway(s, cfg, steps, owner, start, info, earlier, sends, k) && steps != []
    requires !CanSkip(TakenIn(s, cfg, steps, info.tenant), info, sends, k)
    ensures Midway(Advance(s, cfg, steps[0]), cfg, steps[1..], owner, start, info, earlier, sends, next)
  {
    var later := TakenIn(Advance(s, cfg, steps[0]), cfg, steps[1..], info.tenant);
    TakenInNext(s, cfg, steps, info.tenant);
    assert steps[0] in steps;
    if TakesIn(s, cfg, steps[0], info.tenant) {
      next := TakenStep(s, cfg, steps[0], later, owner, start, info, earlier, sends, k);
    } else {
      next := k;
      OtherStep(s, cfg, steps[0], owner, start, info, earlier, sends, k);
    }
  }

  lemma NothingLeft(s: Sys, cfg: Config, owner: Inv.RunId -> Tenant, start: Inv.Db,
                    info: RunInfo, earlier: seq<Inv.Batch>, sends: Attempts, k: nat)
    requires Midway(s, cfg, [], owner, start, info, earlier, sends, k)
    requires !CanSkip([], info, sends, k)
    ensures Batches(OfTenant(s.w.accepted, info.tenant)) == earlier + Kept(info, sends, 0, |sends|)
  {
    NoMorePosts(info, sends, k);
  }

  /** However often the client posts its batches, and whatever all tenants do in between: the jobs accepted
      from the run are exactly its enqueued batches, each once and in order. */
  lemma {:induction false} RunIsAcceptedOnce(s: Sys, cfg: Config, steps: seq<Action>, owner: Inv.RunId -> Tenant,
                                             start: Inv.Db, info: RunInfo, earlier: seq<Inv.Batch>, sends: Attempts,
                                               k: nat)
    requires Midway(s, cfg, steps, owner, start, info, earlier, sends, k)
    ensures Batches(OfTenant(AdvanceAll(s, cfg, steps).w.accepted, info.tenant))
            == earlier + Kept(info, sends, 0, |sends|)
    decreases |steps|, |sends| - k
  {
    if CanSkip(TakenIn(s, cfg, steps, info.tenant), info, sends, k) {
      SkipAttempt(s, cfg, steps, owner, start, info, earlier, sends, k);
      RunIsAcceptedOnce(s, cfg, steps, owner, start, info, earlier, sends, k + 1);
    } else if steps == [] {
      NothingLeft(s, cfg, owner, start, info, earlier, sends, k);
    } else {
      var next := TakeStep(s, cfg, steps, owner, start, info, earlier, sends, k);
      RunIsAcceptedOnce(Advance(s, cfg, steps[0]), cfg, steps[1..], owner, start, info, earlier, sends, next);
    }
  }

  /** Run ids are fresh: neither the queue nor the tenant's earlier jobs know the run. */
  ghost predicate UnknownRun(s: Sys, info: RunInfo) {
    && (forall id <- s.w.q.status :: !OfRun(id, info))
    && (forall b <- Batches(OfTenant(s.w.accepted, info.tenant)) :: b.run != info.run)
  }

  lemma RunStarts(s: Sys, cfg: Config, owner: Inv.RunId -> Tenant, start: Inv.Db, info: RunInfo, sends: Attempts)
    requires Ready(s, cfg, owner, start, info.tenant) && StatusKnown(s.w.q) && UnknownRun(s, info)
    ensures InRun(s, cfg, owner, start, info, Batches(OfTenant(s.w.accepted, info.tenant)), sends, 0)
  {
    var earlier := Batches(OfTenant(s.w.accepted, info.tenant));
    assert earlier + [] == earlier;
    forall index: nat
      ensures IdOf(info, index) !in s.w.q.status
    {
      assert OfRun(IdOf(info, index), info);
    }
  }
}
