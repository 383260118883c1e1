/** The backend end to end: the queue hands each tenant's jobs, one at a time, to the ingest service.
    Every tenant's tables are the result of ingesting its own jobs in the order they were accepted,
    whatever all other tenants do in between. */
module Pipeline {
  import opened Common
  import opened Sequences
  import opened JobQueue
  import opened QueueHistory
  import opened TenantIsolation
  import Inv = Inventory
  import Props = InventoryProperties
  import Snap = InventorySnapshot

  /** What a job carries: an inventory batch, or a batch of a module that leaves these tables alone. */
  datatype Body = InventoryBody(batch: Inv.Batch) | OtherBody

  const INVENTORY_MODULE := 3

  /** The queue, the tenants whose active job has had its ingest but is not released yet, the tables,
      and every job ingested so far in order. */
  datatype Sys = Sys(w: World<Body>, ran: set<Tenant>, db: Inv.Db, ingested: seq<Entry<Body>>)

  datatype Config = Config(maxDepth: nat, ingest: Inv.Config)

  /** `Offer` and `Take` are the queue's own steps; `Process` and `Finish` are the two halves of
      processing a job: ingest and settle, then release. */
  datatype Action =
    | Offer(job: Job<Body>)
    | Take
    | Process(job: Job<Body>, commits: bool)
    | Finish(job: Job<Body>)

  function IngestBody(db: Inv.Db, cfg: Inv.Config, body: Body, commits: bool): (Inv.Db, Inv.Outcome) {
    match body
    case InventoryBody(b) => Inv.Ingest(db, cfg, b, commits)
    case OtherBody => (db, if commits then Inv.Committed else Inv.Failed)
  }

  ghost function Advance(s: Sys, cfg: Config, step: Action): Sys {
    match step
    case Offer(job) => s.(w := Next(s.w, cfg.maxDepth, EnqueueStep(job)))
    case Take => s.(w := Next(s.w, cfg.maxDepth, StartStep))
    case Process(job, commits) =>
      if Encoded(job) !in s.w.q.processing || job.id.tenant in s.ran then s
      else
        var (db, outcome) := IngestBody(s.db, cfg.ingest, job.body, commits);
        Sys(Next(s.w, cfg.maxDepth, SettleStep(job, outcome == Inv.Committed)),
            s.ran + {job.id.tenant}, db, s.ingested + [Encoded(job)])
    case Finish(job) =>
      if Encoded(job) !in s.w.q.processing || job.id.tenant !in s.ran then s
      else s.(w := Next(s.w, cfg.maxDepth, ReleaseStep(job)), ran := s.ran - {job.id.tenant})
  }

  /** What each action does: offering and taking are the queue's; processing ingests the job of a tenant whose job has
      not been ingested yet, once, and its status says whether that was committed; finishing releases it. */
  lemma ActionMeaning(s: Sys, cfg: Config, job: Job<Body>, commits: bool)
    ensures Advance(s, cfg, Offer(job)).w.q == Enqueue(s.w.q, cfg.maxDepth, job).0
    ensures Advance(s, cfg, Take).w.q == StartNext(s.w.q).0
    ensures var s' := Advance(s, cfg, Process(job, commits));
            if Encoded(job) in s.w.q.processing && job.id.tenant !in s.ran
            then
              && s'.ran == s.ran + {job.id.tenant} && s'.ingested == s.ingested + [Encoded(job)]
              && s'.w.q.queue == s.w.q.queue && s'.w.q.processing == s.w.q.processing
              && (job.body.OtherBody? ==>
                    s'.db == s.db && s'.w.q.status == s.w.q.status[job.id := if commits then Done else Failed])
              && (job.body.InventoryBody? ==>
                    var (db, outcome) := Inv.Ingest(s.db, cfg.ingest, job.body.batch, commits);
                    && s'.db == db
                    && s'.w.q.status == s.w.q.status[job.id := if outcome.Committed? then Done else Failed])
            else s' == s
    ensures var s' := Advance(s, cfg, Finish(job));
            if Encoded(job) in s.w.q.processing && job.id.tenant in s.ran
            then
              && s'.w.q == Release(s.w.q, job) && s'.w.finished == s.w.finished + [Encoded(job)]
              && s'.ran == s.ran - {job.id.tenant} && s'.db == s.db
            else s' == s
  {
  }

  ghost function AdvanceAll(s: Sys, cfg: Config, steps: seq<Action>): Sys
    decreases |steps|
  {
    if steps == [] then s else AdvanceAll(Advance(s, cfg, steps[0]), cfg, steps[1..])
  }

  // ---------------------------------------------------------------------------------------------
  // What every step keeps for one tenant
  // ---------------------------------------------------------------------------------------------

  /** A job id names the tenant, the module, the run and the batch that the job carries, and run ids
      belong to one tenant. */
  ghost predicate WellAddressed(job: Job<Body>, owner: Inv.RunId -> Tenant) {
    match job.body
    case InventoryBody(b) =>
      job.id == JobId(b.tenant, INVENTORY_MODULE, b.run, b.index) && owner(b.run) == b.tenant
    case OtherBody => job.id.m != INVENTORY_MODULE
  }

  ghost predicate AllAddressed(entries: seq<Entry<Body>>, owner: Inv.RunId -> Tenant) {
    forall e <- entries :: e.Encoded? ==> WellAddressed(e.job, owner)
  }

  function Cargo(e: Entry<Body>): seq<Inv.Batch> {
    if e.Encoded? && e.job.body.InventoryBody? then [e.job.body.batch] else []
  }

  function Batches(entries: seq<Entry<Body>>): seq<Inv.Batch> {
    if entries == [] then [] else Cargo(entries[0]) + Batches(entries[1..])
  }

  lemma {:induction false} BatchesConcat(a: seq<Entry<Body>>, b: seq<Entry<Body>>)
    ensures Batches(a + b) == Batches(a) + Batches(b)
  {
    if a == [] {
      assert a + b == b;
    } else {
      BatchesConcat(a[1..], b);
      assert (a + b)[1..] == a[1..] + b;
      ConcatAssoc(Cargo(a[0]), Batches(a[1..]), Batches(b));
    }
  }

  lemma BatchesOne(job: Job<Body>)
    ensures Batches([Encoded(job)]) == if job.body.InventoryBody? then [job.body.batch] else []
  {
    assert [Encoded(job)][1..] == [];
  }

  /** The batches of a tenant's jobs, all let through by the database. */
  function ReplayOf(entries: seq<Entry<Body>>): seq<Props.Arrival> {
    Snap.Commits(Batches(entries))
  }

  lemma ReplayExtends(db: Inv.Db, cfg: Inv.Config, entries: seq<Entry<Body>>, job: Job<Body>)
    ensures Props.IngestAll(db, cfg, ReplayOf(entries + [Encoded(job)]))
            == IngestBody(Props.IngestAll(db, cfg, ReplayOf(entries)), cfg, job.body, true).0
  {
    BatchesConcat(entries, [Encoded(job)]);
    BatchesOne(job);
    Snap.CommitsConcat(Batches(entries), Batches([Encoded(job)]));
    Props.IngestAllConcat(db, cfg, ReplayOf(entries), ReplayOf([Encoded(job)]));
    var before := Props.IngestAll(db, cfg, ReplayOf(entries));
    if job.body.InventoryBody? {
      var one := Snap.Commits([job.body.batch]);
      assert one[0] == Props.Arrival(job.body.batch, true) && one[1..] == [];
    } else {
      assert Snap.Commits([]) == [];
    }
  }

  /** The tenant's ingested jobs: those released, and its job in processing once that has run. */
  ghost predicate InStep(s: Sys, t: Tenant) {
    OfTenant(s.ingested, t)
    == OfTenant(s.w.finished, t) + if t in s.ran then OfTenant(s.w.q.processing, t) else []
  }

  ghost predicate Sane(s: Sys, owner: Inv.RunId -> Tenant) {
    && Good(s.w.q)
    && s.ran <= s.w.q.active
    && AllAddressed(s.w.q.queue, owner)
    && AllAddressed(s.w.q.processing, owner)
    && Props.Owned(s.db.staging, owner)
  }

  ghost predicate Replayed(s: Sys, cfg: Config, start: Inv.Db, t: Tenant) {
    View(s.db, t) == Props.IngestAll(View(start, t), cfg.ingest, ReplayOf(OfTenant(s.ingested, t)))
  }

  lemma TakeKeepsAddresses(q: QueueState<Body>, owner: Inv.RunId -> Tenant)
    requires Good(q) && AllAddressed(q.queue, owner) && AllAddressed(q.processing, owner)
    ensures var q' := StartNext(q).0;
            AllAddressed(q'.queue, owner) && AllAddressed(q'.processing, owner) && q.active <= q'.active
  {
    StartShrinks(q);
    if StartNext(q).1.Some? {
      var before, after := StartMovesOneJob(q);
      assert forall e <- StartNext(q).0.queue :: e in q.queue;
      var e := Encoded(StartNext(q).1.value);
      assert e in q.queue by { assert (before + [e] + after)[|before|] == e; }
    }
  }

  lemma FinishKeepsAddresses(q: QueueState<Body>, job: Job<Body>, owner: Inv.RunId -> Tenant)
    requires Good(q) && AllAddressed(q.processing, owner) && Encoded(job) in q.processing
    ensures AllAddressed(Release(q, job).processing, owner)
  {
    var i := RemoveFirstSplits(q.processing, Encoded(job));
  }

  /** An ingested job leaves every other tenant's tables alone. */
  lemma ProcessIsLocal(db: Inv.Db, cfg: Inv.Config, job: Job<Body>, commits: bool, owner: Inv.RunId -> Tenant)
    requires Props.Owned(db.staging, owner) && WellAddressed(job, owner)
    ensures var (db', outcome) := IngestBody(db, cfg, job.body, commits);
            && Props.Owned(db'.staging, owner)
            && View(db', job.id.tenant) == IngestBody(View(db, job.id.tenant), cfg, job.body, commits).0
            && (forall u :: u != job.id.tenant ==> View(db', u) == View(db, u))
  {
    if job.body.InventoryBody? {
      IngestIsLocal(db, cfg, Props.Arrival(job.body.batch, commits), owner);
    }
  }

  lemma AdvanceKeepsSane(s: Sys, cfg: Config, step: Action, owner: Inv.RunId -> Tenant)
    requires Sane(s, owner) && (step.Offer? ==> WellAddressed(step.job, owner))
    ensures Sane(Advance(s, cfg, step), owner)
  {
    match step
    case Offer(job) => StepKeepsGood(s.w, cfg.maxDepth, EnqueueStep(job));
    case Take =>
      StepKeepsGood(s.w, cfg.maxDepth, StartStep);
      TakeKeepsAddresses(s.w.q, owner);
    case Process(job, commits) =>
      if Encoded(job) in s.w.q.processing {
        ProcessIsLocal(s.db, cfg.ingest, job, commits, owner);
      }
    case Finish(job) =>
      if Encoded(job) in s.w.q.processing {
        StepKeepsGood(s.w, cfg.maxDepth, ReleaseStep(job));
        FinishKeepsAddresses(s.w.q, job, owner);
      }
  }

  /** With one job of the tenant in processing, that job is all the tenant has there. */
  lemma OnlyJobInProcessing(q: QueueState<Body>, job: Job<Body>)
    requires Good(q) && Encoded(job) in q.processing
    ensures OfTenant(q.processing, job.id.tenant) == [Encoded(job)]
  {
    var t, mine := job.id.tenant, (e: Entry<Body>) => Mine(e, job.id.tenant);
    AtMostOneInProcessing(q, t);
    FilterMembers(q.processing, mine, Encoded(job));
  }

  lemma TakeKeepsInStep(s: Sys, cfg: Config, t: Tenant)
    requires Good(s.w.q) && s.ran <= s.w.q.active && InStep(s, t)
    ensures InStep(Advance(s, cfg, Take), t)
  {
    StartShrinks(s.w.q);
    if StartNext(s.w.q).1.Some? {
      var before, after := StartMovesOneJob(s.w.q);
      var e := Encoded(StartNext(s.w.q).1.value);
      OfTenantConcat(s.w.q.processing, [e], t);
      OfTenantOne(e, t);
    }
  }

  /** Releasing a job takes it out of its tenant's jobs in processing. */
  lemma ReleasedOfTenant(q: QueueState<Body>, job: Job<Body>, t: Tenant)
    requires Good(q) && Encoded(job) in q.processing
    ensures OfTenant(Release(q, job).processing, t) == if job.id.tenant == t then [] else OfTenant(q.processing, t)
    ensures job.id.tenant == t ==> OfTenant(q.processing, t) == [Encoded(job)]
  {
    var e := Encoded(job);
    var i := RemoveFirstSplits(q.processing, e);
    SplitAround(q.processing, i);
    OfTenantSplit(q.processing[..i], e, q.processing[i + 1..], t);
    if job.id.tenant == t {
      OnlyJobInProcessing(q, job);
      assert |OfTenant(q.processing[..i] + q.processing[i + 1..], t)| == 0;
    }
  }

  lemma FinishKeepsInStep(s: Sys, cfg: Config, job: Job<Body>, t: Tenant)
    requires Good(s.w.q) && InStep(s, t)
    ensures InStep(Advance(s, cfg, Finish(job)), t)
  {
    if Encoded(job) in s.w.q.processing && job.id.tenant in s.ran {
      ReleasedOfTenant(s.w.q, job, t);
      OfTenantConcat(s.w.finished, [Encoded(job)], t);
      OfTenantOne(Encoded(job), t);
    }
  }

  lemma ProcessKeepsInStep(s: Sys, cfg: Config, job: Job<Body>, commits: bool, t: Tenant)
    requires Good(s.w.q) && InStep(s, t)
    ensures InStep(Advance(s, cfg, Process(job, commits)), t)
  {
    OfTenantConcat(s.ingested, [Encoded(job)], t);
    OfTenantOne(Encoded(job), t);
    if Encoded(job) in s.w.q.processing && job.id.tenant == t {
      OnlyJobInProcessing(s.w.q, job);
    }
  }

  lemma AdvanceKeepsInStep(s: Sys, cfg: Config, step: Action, t: Tenant)
    requires Good(s.w.q) && s.ran <= s.w.q.active && InStep(s, t)
    ensures InStep(Advance(s, cfg, step), t)
  {
    match step
    case Offer(job) =>
    case Take => TakeKeepsInStep(s, cfg, t);
    case Process(job, commits) => ProcessKeepsInStep(s, cfg, job, commits, t);
    case Finish(job) => FinishKeepsInStep(s, cfg, job, t);
  }

  lemma AdvanceKeepsFifo(s: Sys, cfg: Config, step: Action, t: Tenant)
    requires Good(s.w.q) && Fifo(s.w, t)
    ensures Fifo(Advance(s, cfg, step).w, t)
  {
    match step
    case Offer(job) => StepKeepsFifo(s.w, cfg.maxDepth, EnqueueStep(job), t);
    case Take => StepKeepsFifo(s.w, cfg.maxDepth, StartStep, t);
    case Process(job, commits) =>
    case Finish(job) => StepKeepsFifo(s.w, cfg.maxDepth, ReleaseStep(job), t);
  }

  /** The database lets the tenant's transactions through; others may fail. */
  ghost predicate Commits(step: Action, t: Tenant) {
    step.Process? && step.job.id.tenant == t ==> step.commits
  }

  lemma AdvanceKeepsReplayed(s: Sys, cfg: Config, step: Action, owner: Inv.RunId -> Tenant, start: Inv.Db, t: Tenant)
    requires Sane(s, owner) && Replayed(s, cfg, start, t) && Commits(step, t)
    ensures Replayed(Advance(s, cfg, step), cfg, start, t)
  {
    if step.Process? && Encoded(step.job) in s.w.q.processing && step.job.id.tenant !in s.ran {
      var e := Encoded(step.job);
      ProcessIsLocal(s.db, cfg.ingest, step.job, step.commits, owner);
      OfTenantConcat(s.ingested, [e], t);
      OfTenantOne(e, t);
      if step.job.id.tenant == t {
        ReplayExtends(View(start, t), cfg.ingest, OfTenant(s.ingested, t), step.job);
      } else {
        assert OfTenant(s.ingested, t) + [] == OfTenant(s.ingested, t);
      }
    }
  }

  ghost predicate Ready(s: Sys, cfg: Config, owner: Inv.RunId -> Tenant, start: Inv.Db, t: Tenant) {
    Sane(s, owner) && Fifo(s.w, t) && InStep(s, t) && Replayed(s, cfg, start, t)
  }

  ghost predicate Orderly(steps: seq<Action>, owner: Inv.RunId -> Tenant, t: Tenant) {
    forall step <- steps :: (step.Offer? ==> WellAddressed(step.job, owner)) && Commits(step, t)
  }

  lemma AdvanceKeepsReady(s: Sys, cfg: Config, step: Action, owner: Inv.RunId -> Tenant, start: Inv.Db, t: Tenant)
    requires Ready(s, cfg, owner, start, t) && (step.Offer? ==> WellAddressed(step.job, owner)) && Commits(step, t)
    ensures Ready(Advance(s, cfg, step), cfg, owner, start, t)
  {
    AdvanceKeepsSane(s, cfg, step, owner);
    AdvanceKeepsFifo(s, cfg, step, t);
    AdvanceKeepsInStep(s, cfg, step, t);
    AdvanceKeepsReplayed(s, cfg, step, owner, start, t);
  }

  lemma {:induction false} HistoryKeepsReady(s: Sys, cfg: Config, steps: seq<Action>, owner: Inv.RunId -> Tenant,
                                             start: Inv.Db, t: Tenant)
    requires Ready(s, cfg, owner, start, t) && Orderly(steps, owner, t)
    ensures Ready(AdvanceAll(s, cfg, steps), cfg, owner, start, t)
    decreases |steps|
  {
    if steps != [] {
      AdvanceKeepsReady(s, cfg, steps[0], owner, start, t);
      HistoryKeepsReady(Advance(s, cfg, steps[0]), cfg, steps[1..], owner, start, t);
    }
  }

  ghost predicate Drained(s: Sys, t: Tenant) {
    OfTenant(s.w.q.queue, t) == [] && OfTenant(s.w.q.processing, t) == []
  }

  /** Once a tenant's jobs have drained, its tables are what ingesting exactly its accepted jobs, one
      after the other in the order of acceptance, makes of the tables it started with. */
  lemma DrainedTenantIsReplayed(s: Sys, cfg: Config, steps: seq<Action>, owner: Inv.RunId -> Tenant, start: Inv.Db,
                                t: Tenant)
    requires Ready(s, cfg, owner, start, t) && Orderly(steps, owner, t)
    requires Drained(AdvanceAll(s, cfg, steps), t)
    ensures var s' := AdvanceAll(s, cfg, steps);
            View(s'.db, t) == Props.IngestAll(View(start, t), cfg.ingest, ReplayOf(OfTenant(s'.w.accepted, t)))
  {
    HistoryKeepsReady(s, cfg, steps, owner, start, t);
    var s' := AdvanceAll(s, cfg, steps);
    var nothing: seq<Entry<Body>> := [];
    var released := OfTenant(s'.w.finished, t);
    assert released + nothing == released && released + nothing + nothing == released;
    assert OfTenant(s'.ingested, t) == released == OfTenant(s'.w.accepted, t);
  }

  /** A tenant none of whose jobs is processed keeps its tables. */
  lemma {:induction false} OthersKeepTheirTables(s: Sys, cfg: Config, steps: seq<Action>, owner: Inv.RunId -> Tenant,
                                                 u: Tenant)
    requires Sane(s, owner)
    requires forall step <- steps ::
               && (step.Offer? ==> WellAddressed(step.job, owner))
               && (step.Process? ==> step.job.id.tenant != u)
    ensures View(AdvanceAll(s, cfg, steps).db, u) == View(s.db, u)
    decreases |steps|
  {
    if steps != [] {
      var step := steps[0];
      AdvanceKeepsSane(s, cfg, step, owner);
      if step.Process? && Encoded(step.job) in s.w.q.processing {
        ProcessIsLocal(s.db, cfg.ingest, step.job, step.commits, owner);
      }
      OthersKeepTheirTables(Advance(s, cfg, step), cfg, steps[1..], owner, u);
    }
  }
}
