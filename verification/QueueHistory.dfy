/** Histories of the ingest queue: any interleaving of enqueues, drains, finishing jobs of all tenants
    and restarts of the process. */
module QueueHistory {
  import opened Common
  import opened Sequences
  import opened JobQueue

  /** Settling a job and releasing it are separate steps, as they are separate commands. */
  datatype Step<B> =
    | EnqueueStep(job: Job<B>)
    | StartStep
    | SettleStep(job: Job<B>, ok: bool)
    | ReleaseStep(job: Job<B>)
    | RestartStep

  /** The queue, every accepted job in order of acceptance, and every released job in order of release. */
  datatype World<B(==)> = World(q: QueueState<B>, accepted: seq<Entry<B>>, finished: seq<Entry<B>>)

  ghost function Next<B>(w: World<B>, maxDepth: nat, step: Step<B>): World<B> {
    match step
    case EnqueueStep(job) =>
      var (q, answer) := Enqueue(w.q, maxDepth, job);
      w.(q := q, accepted := if answer.Accepted? then w.accepted + [Encoded(job)] else w.accepted)
    case StartStep => w.(q := StartNext(w.q).0)
    case SettleStep(job, ok) => if Encoded(job) in w.q.processing then w.(q := Settle(w.q, job, ok)) else w
    case ReleaseStep(job) =>
      if Encoded(job) in w.q.processing
      then w.(q := Release(w.q, job), finished := w.finished + [Encoded(job)])
      else w
    case RestartStep => w.(q := Restart(w.q))
  }

  /** What ending a job leaves: its status, for a job in processing, and everything else as it was. */
  lemma SettleMeaning<B>(w: World<B>, maxDepth: nat, job: Job<B>, ok: bool)
    ensures var w' := Next(w, maxDepth, SettleStep(job, ok));
            && w'.accepted == w.accepted && w'.finished == w.finished
            && w'.q.queue == w.q.queue && w'.q.processing == w.q.processing && w'.q.active == w.q.active
            && (Encoded(job) !in w.q.processing ==> w' == w)
            && (Encoded(job) in w.q.processing ==> w'.q.status == w.q.status[job.id := if ok then Done else Failed])
  {
  }

  ghost function History<B>(w: World<B>, maxDepth: nat, steps: seq<Step<B>>): World<B>
    decreases |steps|
  {
    if steps == [] then w else History(Next(w, maxDepth, steps[0]), maxDepth, steps[1..])
  }

  // ---------------------------------------------------------------------------------------------
  // Entries of one tenant
  // ---------------------------------------------------------------------------------------------

  predicate Mine<B>(e: Entry<B>, t: Tenant) {
    e.Encoded? && e.job.id.tenant == t
  }

  function OfTenant<B>(s: seq<Entry<B>>, t: Tenant): seq<Entry<B>> {
    Filter(s, (e: Entry<B>) => Mine(e, t))
  }

  lemma OfTenantConcat<B>(a: seq<Entry<B>>, b: seq<Entry<B>>, t: Tenant)
    ensures OfTenant(a + b, t) == OfTenant(a, t) + OfTenant(b, t)
  {
    FilterConcat(a, b, (e: Entry<B>) => Mine(e, t));
  }

  lemma OfTenantNone<B>(s: seq<Entry<B>>, t: Tenant)
    requires forall e <- s :: !Mine(e, t)
    ensures OfTenant(s, t) == []
  {
    FilterNone(s, (e: Entry<B>) => Mine(e, t));
  }

  lemma OfTenantMembers<B>(s: seq<Entry<B>>, t: Tenant)
    ensures forall e <- OfTenant(s, t) :: Mine(e, t) && e in s
  {
    forall e | e in OfTenant(s, t)
      ensures Mine(e, t) && e in s
    {
      FilterMembers(s, (e: Entry<B>) => Mine(e, t), e);
    }
  }

  lemma OfTenantOne<B>(e: Entry<B>, t: Tenant)
    ensures OfTenant([e], t) == if Mine(e, t) then [e] else []
  {
    FilterOne(e, (e: Entry<B>) => Mine(e, t));
  }

  // ---------------------------------------------------------------------------------------------
  // What every step keeps
  // ---------------------------------------------------------------------------------------------

  /** Every entry parses, the active tenants are those with a job in processing, and no tenant has two. */
  ghost predicate Good<B>(q: QueueState<B>) {
    && Clean(q)
    && q.active == (set e <- q.processing :: e.job.id.tenant)
    && (forall i, j :: 0 <= i < j < |q.processing| ==> q.processing[i].job.id.tenant != q.processing[j].job.id.tenant)
  }

  ghost predicate Conserved<B>(w: World<B>) {
    multiset(w.q.queue) + multiset(w.q.processing) + multiset(w.finished) == multiset(w.accepted)
  }

  ghost predicate Bounded<B>(q: QueueState<B>, maxDepth: nat) {
    |q.queue| + |q.processing| <= maxDepth
  }

  lemma StartIsSafe<B>(w: World<B>, maxDepth: nat)
    requires Good(w.q) && Conserved(w) && Bounded(w.q, maxDepth)
    ensures var w' := Next(w, maxDepth, StartStep);
            Good(w'.q) && Conserved(w') && Bounded(w'.q, maxDepth)
  {
    StartShrinks(w.q);
    if StartNext(w.q).1.Some? {
      var before, after := StartMovesOneJob(w.q);
    }
  }

  lemma RemovalKeepsGood<B>(q: QueueState<B>, q': QueueState<B>, before: seq<Entry<B>>, e: Entry<B>,
                            after: seq<Entry<B>>)
    requires Good(q) && q.processing == before + [e] + after
    requires q' == q.(processing := before + after, active := q.active - {e.job.id.tenant})
    ensures Good(q')
  {
    var p, p' := q.processing, q'.processing;
    assert p[|before|] == e;
    assert forall i :: 0 <= i < |p'| ==> p'[i] == p[if i < |before| then i else i + 1];
    forall t
      ensures t in q'.active <==> exists x <- p' :: x.job.id.tenant == t
    {
      if t in q'.active {
        var x :| x in p && x.job.id.tenant == t;
        assert x in p';
      }
    }
  }

  lemma ReleaseIsSafe<B>(w: World<B>, maxDepth: nat, job: Job<B>)
    requires Good(w.q) && Conserved(w) && Bounded(w.q, maxDepth)
    ensures var w' := Next(w, maxDepth, ReleaseStep(job));
            Good(w'.q) && Conserved(w') && Bounded(w'.q, maxDepth)
  {
    var p, w' := w.q.processing, Next(w, maxDepth, ReleaseStep(job));
    if Encoded(job) in p {
      var i := RemoveFirstSplits(p, Encoded(job));
      assert p == p[..i] + [p[i]] + p[i + 1..];
      RemovalKeepsGood(w.q, w'.q, p[..i], p[i], p[i + 1..]);
    }
  }

  lemma StepIsSafe<B>(w: World<B>, maxDepth: nat, step: Step<B>)
    requires Good(w.q) && Conserved(w) && Bounded(w.q, maxDepth)
    ensures var w' := Next(w, maxDepth, step);
            Good(w'.q) && Conserved(w') && Bounded(w'.q, maxDepth)
  {
    match step
    case EnqueueStep(job) =>
    case StartStep => StartIsSafe(w, maxDepth);
    case SettleStep(job, ok) =>
    case ReleaseStep(job) => ReleaseIsSafe(w, maxDepth, job);
    case RestartStep =>
  }

  lemma StepKeepsGood<B>(w: World<B>, maxDepth: nat, step: Step<B>)
    requires Good(w.q)
    ensures Good(Next(w, maxDepth, step).q)
  {
    match step
    case EnqueueStep(job) =>
    case StartStep => StartIsSafe(Anew(w), |w.q.queue| + |w.q.processing|);
    case SettleStep(job, ok) =>
    case ReleaseStep(job) => ReleaseIsSafe(Anew(w), |w.q.queue| + |w.q.processing|, job);
    case RestartStep =>
  }

  ghost function Anew<B>(w: World<B>): World<B> {
    World(w.q, w.q.queue + w.q.processing, [])
  }

  /** Through any interleaving and any number of restarts no job is lost or duplicated, every entry
      parses, every tenant has at most one job in processing, and the backlog stays within bounds. */
  lemma {:induction false} NoJobIsLost<B>(w: World<B>, maxDepth: nat, steps: seq<Step<B>>)
    requires Good(w.q) && Conserved(w) && Bounded(w.q, maxDepth)
    ensures var w' := History(w, maxDepth, steps);
            Good(w'.q) && Conserved(w') && Bounded(w'.q, maxDepth)
    decreases |steps|
  {
    if steps != [] {
      StepIsSafe(w, maxDepth, steps[0]);
      NoJobIsLost(Next(w, maxDepth, steps[0]), maxDepth, steps[1..]);
    }
  }

  // ---------------------------------------------------------------------------------------------
  // First in, first out per tenant
  // ---------------------------------------------------------------------------------------------

  ghost predicate Fifo<B>(w: World<B>, t: Tenant) {
    OfTenant(w.finished, t) + OfTenant(w.q.processing, t) + OfTenant(w.q.queue, t) == OfTenant(w.accepted, t)
  }

  lemma OfTenantSplit<B>(before: seq<Entry<B>>, e: Entry<B>, after: seq<Entry<B>>, t: Tenant)
    ensures OfTenant(before + [e] + after, t)
            == OfTenant(before, t) + (if Mine(e, t) then [e] else []) + OfTenant(after, t)
    ensures OfTenant(before + after, t) == OfTenant(before, t) + OfTenant(after, t)
  {
    OfTenantConcat(before + [e], after, t);
    OfTenantConcat(before, [e], t);
    OfTenantConcat(before, after, t);
    OfTenantOne(e, t);
  }

  lemma StartRegroup<X>(f: seq<X>, p: seq<X>, before: seq<X>, moved: seq<X>, after: seq<X>)
    requires moved == [] || (p == [] && before == [])
    ensures f + p + (before + moved + after) == f + (p + moved) + (before + after)
  {
  }

  lemma ReleaseRegroup<X>(f: seq<X>, before: seq<X>, moved: seq<X>, after: seq<X>, q: seq<X>)
    requires moved == [] || (before == [] && after == [])
    ensures f + (before + moved + after) + q == (f + moved) + (before + after) + q
  {
  }

  lemma StartKeepsFifo<B>(w: World<B>, maxDepth: nat, t: Tenant)
    requires Good(w.q) && Fifo(w, t)
    ensures Fifo(Next(w, maxDepth, StartStep), t)
  {
    StartShrinks(w.q);
    if StartNext(w.q).1.Some? {
      var before, after := StartMovesOneJob(w.q);
      var e, q' := Encoded(StartNext(w.q).1.value), StartNext(w.q).0;
      var moved := if Mine(e, t) then [e] else [];
      assert OfTenant(w.q.queue, t) == OfTenant(before, t) + moved + OfTenant(after, t)
          && OfTenant(q'.queue, t) == OfTenant(before, t) + OfTenant(after, t) by {
        OfTenantSplit(before, e, after, t);
      }
      assert OfTenant(q'.processing, t) == OfTenant(w.q.processing, t) + moved by {
        OfTenantConcat(w.q.processing, [e], t);
        OfTenantOne(e, t);
      }
      if Mine(e, t) {
        OfTenantNone(before, t);
        OfTenantNone(w.q.processing, t);
      }
      StartRegroup(OfTenant(w.finished, t), OfTenant(w.q.processing, t), OfTenant(before, t), moved,
                   OfTenant(after, t));
    }
  }

  lemma ReleaseKeepsFifo<B>(w: World<B>, maxDepth: nat, job: Job<B>, t: Tenant)
    requires Good(w.q) && Fifo(w, t)
    ensures Fifo(Next(w, maxDepth, ReleaseStep(job)), t)
  {
    var e, p := Encoded(job), w.q.processing;
    if e in p {
      var i := RemoveFirstSplits(p, e);
      var before, after := p[..i], p[i + 1..];
      var moved := if Mine(e, t) then [e] else [];
      assert OfTenant(p, t) == OfTenant(before, t) + moved + OfTenant(after, t)
          && OfTenant(RemoveFirst(p, e), t) == OfTenant(before, t) + OfTenant(after, t) by {
        assert p == before + [e] + after;
        OfTenantSplit(before, e, after, t);
      }
      assert OfTenant(w.finished + [e], t) == OfTenant(w.finished, t) + moved by {
        OfTenantConcat(w.finished, [e], t);
        OfTenantOne(e, t);
      }
      if Mine(e, t) {
        OfTenantNone(before, t);
        OfTenantNone(after, t);
      }
      ReleaseRegroup(OfTenant(w.finished, t), OfTenant(before, t), moved, OfTenant(after, t), OfTenant(w.q.queue, t));
    }
  }

  lemma StepKeepsFifo<B>(w: World<B>, maxDepth: nat, step: Step<B>, t: Tenant)
    requires Good(w.q) && Fifo(w, t) && !step.RestartStep?
    ensures Fifo(Next(w, maxDepth, step), t)
  {
    match step
    case EnqueueStep(job) =>
      OfTenantConcat(w.q.queue, [Encoded(job)], t);
      OfTenantConcat(w.accepted, [Encoded(job)], t);
    case StartStep => StartKeepsFifo(w, maxDepth, t);
    case SettleStep(job, ok) =>
    case ReleaseStep(job) => ReleaseKeepsFifo(w, maxDepth, job, t);
  }

  /** The restarts of a history that find the tenant with nothing in processing, or nothing waiting. */
  ghost predicate RestartsKeepOrder<B>(w: World<B>, maxDepth: nat, steps: seq<Step<B>>, t: Tenant)
    decreases |steps|
  {
    steps == [] ||
    (&& (steps[0].RestartStep? ==> OfTenant(w.q.processing, t) == [] || OfTenant(w.q.queue, t) == [])
     && RestartsKeepOrder(Next(w, maxDepth, steps[0]), maxDepth, steps[1..], t))
  }

  lemma RestartKeepsFifo<B>(w: World<B>, maxDepth: nat, t: Tenant)
    requires Fifo(w, t) && (OfTenant(w.q.processing, t) == [] || OfTenant(w.q.queue, t) == [])
    ensures Fifo(Next(w, maxDepth, RestartStep), t)
  {
    var f, p, q := OfTenant(w.finished, t), OfTenant(w.q.processing, t), OfTenant(w.q.queue, t);
    OfTenantConcat(w.q.queue, w.q.processing, t);
    assert f + p + q == f + [] + (q + p);
  }

  /** Whatever all tenants do in between, and through every restart that finds the tenant with nothing in
      processing or nothing waiting, the tenant's released jobs, its job in processing and its waiting jobs
      are together its accepted jobs in order, and at most one of them is in processing. */
  lemma {:induction false} PerTenantFifo<B>(w: World<B>, maxDepth: nat, steps: seq<Step<B>>, t: Tenant)
    requires Good(w.q) && Fifo(w, t) && RestartsKeepOrder(w, maxDepth, steps, t)
    ensures var w' := History(w, maxDepth, steps);
            Good(w'.q) && Fifo(w', t) && |OfTenant(w'.q.processing, t)| <= 1
    decreases |steps|
  {
    if steps == [] {
      AtMostOneInProcessing(w.q, t);
    } else {
      var next := Next(w, maxDepth, steps[0]);
      StepKeepsGood(w, maxDepth, steps[0]);
      if steps[0].RestartStep? {
        RestartKeepsFifo(w, maxDepth, t);
      } else {
        StepKeepsFifo(w, maxDepth, steps[0], t);
      }
      PerTenantFifo(next, maxDepth, steps[1..], t);
    }
  }

  lemma {:induction false} AtMostOneInProcessing<B>(q: QueueState<B>, t: Tenant)
    requires Good(q)
    ensures |OfTenant(q.processing, t)| <= 1
  {
    var p := q.processing;
    if i :| 0 <= i < |p| && Mine(p[i], t) {
      assert p == p[..i] + ([p[i]] + p[i + 1..]);
      OfTenantConcat(p[..i], [p[i]] + p[i + 1..], t);
      OfTenantConcat([p[i]], p[i + 1..], t);
      OfTenantOne(p[i], t);
      OfTenantNone(p[..i], t);
      OfTenantNone(p[i + 1..], t);
    } else {
      OfTenantNone(p, t);
    }
  }

  // ---------------------------------------------------------------------------------------------
  // Restarts and order
  // ---------------------------------------------------------------------------------------------

  /** A restart sends a tenant's job in processing behind its waiting jobs.  It keeps the tenant's order
      exactly when the tenant had nothing in processing, or nothing waiting. */
  lemma RestartKeepsFifoIff<B>(w: World<B>, maxDepth: nat, t: Tenant)
    requires Good(w.q) && Fifo(w, t)
    requires forall e <- OfTenant(w.q.queue, t) :: e !in w.q.processing
    ensures Fifo(Next(w, maxDepth, RestartStep), t)
            <==> (OfTenant(w.q.processing, t) == [] || OfTenant(w.q.queue, t) == [])
  {
    var f, p, q := OfTenant(w.finished, t), OfTenant(w.q.processing, t), OfTenant(w.q.queue, t);
    OfTenantConcat(w.q.queue, w.q.processing, t);
    OfTenantMembers(w.q.processing, t);
    var before, after := f + p + q, f + [] + (q + p);
    assert Fifo(Next(w, maxDepth, RestartStep), t) <==> before == after;
    if p != [] && q != [] {
      assert p[0] in w.q.processing && q[0] in q;
      assert before[|f|] == p[0] && after[|f|] == q[0];
    } else {
      assert before == after;
    }
  }

  /** Two jobs of a tenant waiting, the first one taken, and both waiting again after a restart. */
  function BothWaiting<B>(a: Job<B>, b: Job<B>): World<B> {
    var x, y := Encoded(a), Encoded(b);
    World(QueueState([x, y], [], map[a.id := Queued, b.id := Queued], {}), [x, y], [])
  }

  function Swapped<B>(a: Job<B>, b: Job<B>): World<B> {
    var x, y := Encoded(a), Encoded(b);
    World(QueueState([y, x], [], map[a.id := Queued, b.id := Queued][a.id := Processing], {}), [x, y], [])
  }

  lemma TwoOffers<B>(a: Job<B>, b: Job<B>)
    requires a.id != b.id
    ensures Next(Next(World(QueueState([], [], map[], {}), [], []), 10, EnqueueStep(a)), 10, EnqueueStep(b))
            == BothWaiting(a, b)
  {
    var w1 := Next(World(QueueState([], [], map[], {}), [], []), 10, EnqueueStep(a));
    assert w1 == World(QueueState([Encoded(a)], [], map[a.id := Queued], {}), [Encoded(a)], []);
  }

  lemma TakenAndRestarted<B>(a: Job<B>, b: Job<B>)
    requires a.id.tenant == b.id.tenant
    ensures Next(Next(BothWaiting(a, b), 10, StartStep), 10, RestartStep) == Swapped(a, b)
  {
    var w := BothWaiting(a, b);
    TakesHead(w.q);
    var w1 := Next(w, 10, StartStep);
    assert w1.q.queue == [Encoded(b)] && w1.q.processing == [Encoded(a)];
  }

  lemma SecondIsFinished<B>(a: Job<B>, b: Job<B>)
    requires a.id.tenant == b.id.tenant
    ensures var w := Next(Next(Swapped(a, b), 10, StartStep), 10, ReleaseStep(b));
            w.accepted == [Encoded(a), Encoded(b)] && w.finished == [Encoded(b)] && w.q.queue == [Encoded(a)]
              && w.q.processing == []
  {
    var w := Swapped(a, b);
    TakesHead(w.q);
    var w1 := Next(w, 10, StartStep);
    assert w1.q.queue == [Encoded(a)] && w1.q.processing == [Encoded(b)];
  }

  /** Any other restart is one that a history can reach: the tenant's second job is finished first. */
  lemma RestartCanBreakOrder<B>(a: Job<B>, b: Job<B>)
    requires a.id.tenant == b.id.tenant && a.id != b.id
    ensures var empty := World(QueueState([], [], map[], {}), [], []);
            var w := History(empty, 10, [EnqueueStep(a), EnqueueStep(b), StartStep, RestartStep, StartStep,
                                         ReleaseStep(b)]);
            && w.accepted == [Encoded(a), Encoded(b)] && w.finished == [Encoded(b)] && w.q.queue == [Encoded(a)]
            && !Fifo(w, a.id.tenant)
  {
    var empty: World<B> := World(QueueState([], [], map[], {}), [], []);
    var last := [StartStep, ReleaseStep(b)];
    var middle := [StartStep, RestartStep] + last;
    TwoOffers(a, b);
    TakenAndRestarted(a, b);
    SecondIsFinished(a, b);
    TwoSteps(Swapped(a, b), 10, StartStep, ReleaseStep(b), []);
    TwoSteps(BothWaiting(a, b), 10, StartStep, RestartStep, last);
    TwoSteps(empty, 10, EnqueueStep(a), EnqueueStep(b), middle);
    assert last + [] == last;
    assert [EnqueueStep(a), EnqueueStep(b)] + middle
        == [EnqueueStep(a), EnqueueStep(b), StartStep, RestartStep, StartStep, ReleaseStep(b)];
    OutOfOrder(History(Swapped(a, b), 10, last), Encoded(a), Encoded(b), a.id.tenant);
  }

  lemma OutOfOrder<B>(w: World<B>, x: Entry<B>, y: Entry<B>, t: Tenant)
    requires w.finished == [y] && w.q.queue == [x] && w.q.processing == [] && w.accepted == [x, y]
    requires Mine(x, t) && Mine(y, t) && x != y
    ensures !Fifo(w, t)
  {
    FilterAll([y], (e: Entry<B>) => Mine(e, t));
    FilterAll([x], (e: Entry<B>) => Mine(e, t));
    FilterAll([x, y], (e: Entry<B>) => Mine(e, t));
  }

  lemma TakesHead<B>(q: QueueState<B>)
    requires 0 < |q.queue| <= SCAN_LIMIT && q.queue[0].Encoded? && q.queue[0].job.id.tenant !in q.active
    ensures var job := q.queue[0].job;
            StartNext(q).0 == QueueState(q.queue[1..], q.processing + [Encoded(job)], q.status[job.id := Processing],
                                         q.active + {job.id.tenant})
  {
    assert RemoveAt(q.queue, 0) == q.queue[1..];
  }

  lemma TwoSteps<B>(w: World<B>, maxDepth: nat, a: Step<B>, b: Step<B>, rest: seq<Step<B>>)
    ensures History(w, maxDepth, [a, b] + rest) == History(Next(Next(w, maxDepth, a), maxDepth, b), maxDepth, rest)
  {
    var steps := [a, b] + rest;
    assert steps[1..] == [b] + rest && steps[1..][1..] == rest;
  }

  // ---------------------------------------------------------------------------------------------
  // Unique job ids
  // ---------------------------------------------------------------------------------------------

  ghost function Unfinished<B>(q: QueueState<B>): multiset<Entry<B>> {
    multiset(q.queue) + multiset(q.processing)
  }

  ghost predicate UniqueIds<B>(q: QueueState<B>) {
    var m := Unfinished(q);
    && (forall e <- m :: m[e] == 1)
    && (forall e, e' :: e in m && e' in m && e.Encoded? && e'.Encoded? && e.job.id == e'.job.id ==> e == e')
  }

  ghost predicate Present<B>(q: QueueState<B>, id: JobId) {
    exists e :: e in Unfinished(q) && e.Encoded? && e.job.id == id
  }

  /** Once a job has ended, the same job is taken in again exactly when it failed; otherwise it is answered as one
      that is done. */
  lemma EndedJobIsRetriedIff<B>(q: QueueState<B>, maxDepth: nat, job: Job<B>, ok: bool)
    requires Good(q) && Encoded(job) in q.processing && Depth(q) <= maxDepth
    ensures Enqueue(Release(Settle(q, job, ok), job), maxDepth, job).1.Accepted? <==> !ok
    ensures ok ==> Enqueue(Release(Settle(q, job, ok), job), maxDepth, job) ==
                   (Release(Settle(q, job, ok), job), Duplicate(Done))
  {
    var q' := Release(Settle(q, job, ok), job);
    var i := RemoveFirstSplits(q.processing, Encoded(job));
    assert |q'.processing| < |q.processing| && |q'.active| <= |q.active|;
  }

  /** Every unfinished job has a status, which is what deduplication looks at. */
  ghost predicate StatusKnown<B>(q: QueueState<B>) {
    forall e <- Unfinished(q) :: e.Encoded? ==> e.job.id in q.status
  }

  /** An accepted enqueue keeps ids unique exactly when the id is not in the lists; and when it is, its
      status says failed: the failed job was settled but not yet released. */
  lemma EnqueueKeepsIdsUniqueIff<B>(q: QueueState<B>, maxDepth: nat, job: Job<B>)
    requires Clean(q) && UniqueIds(q) && StatusKnown(q) && Enqueue(q, maxDepth, job).1.Accepted?
    ensures UniqueIds(Enqueue(q, maxDepth, job).0) <==> !Present(q, job.id)
    ensures Present(q, job.id) ==> q.status[job.id] == Failed
  {
    var q' := Enqueue(q, maxDepth, job).0;
    assert Unfinished(q') == Unfinished(q) + multiset{Encoded(job)};
    if Present(q, job.id) {
      AddingPresentIdBreaksUniqueness(q, q', job);
    } else {
      AddingFreshIdKeepsUniqueness(q, q', job);
    }
  }

  lemma AddingPresentIdBreaksUniqueness<B>(q: QueueState<B>, q': QueueState<B>, job: Job<B>)
    requires Unfinished(q') == Unfinished(q) + multiset{Encoded(job)} && Present(q, job.id)
    ensures !UniqueIds(q')
  {
    var e0 :| e0 in Unfinished(q) && e0.Encoded? && e0.job.id == job.id;
    var m := Unfinished(q');
    assert e0 in m && Encoded(job) in m;
    if e0 == Encoded(job) {
      assert m[e0] >= 2;
    }
  }

  lemma AddingFreshIdKeepsUniqueness<B>(q: QueueState<B>, q': QueueState<B>, job: Job<B>)
    requires Unfinished(q') == Unfinished(q) + multiset{Encoded(job)} && !Present(q, job.id) && UniqueIds(q)
    ensures UniqueIds(q')
  {
    var m, m' := Unfinished(q), Unfinished(q');
    assert Encoded(job) !in m;
    forall e | e in m'
      ensures m'[e] == 1
    {
      if e != Encoded(job) {
        assert e in m && m'[e] == m[e];
      }
    }
    forall e, e' | e in m' && e' in m' && e.Encoded? && e'.Encoded? && e.job.id == e'.job.id
      ensures e == e'
    {
      assert e in m || e == Encoded(job);
      assert e' in m || e' == Encoded(job);
    }
  }

  /** The one thing enqueues must not do: retry a failed job between its settling and its release. */
  ghost predicate Serialised<B>(w: World<B>, step: Step<B>) {
    step.EnqueueStep? && step.job.id in w.q.status && w.q.status[step.job.id] == Failed ==> !Present(w.q, step.job.id)
  }

  ghost predicate SerialisedHistory<B>(w: World<B>, maxDepth: nat, steps: seq<Step<B>>)
    decreases |steps|
  {
    steps == [] || (Serialised(w, steps[0]) && SerialisedHistory(Next(w, maxDepth, steps[0]), maxDepth, steps[1..]))
  }

  lemma FewerJobsStayUnique<B>(q: QueueState<B>, q': QueueState<B>)
    requires UniqueIds(q) && StatusKnown(q)
    requires Unfinished(q') <= Unfinished(q) && q.status.Keys <= q'.status.Keys
    ensures UniqueIds(q') && StatusKnown(q')
  {
    forall e | e in Unfinished(q')
      ensures e in Unfinished(q) && Unfinished(q')[e] == 1
    {
      assert 0 < Unfinished(q')[e] <= Unfinished(q)[e];
    }
  }

  lemma SerialisedEnqueueKeepsIdsUnique<B>(q: QueueState<B>, maxDepth: nat, job: Job<B>)
    requires Clean(q) && UniqueIds(q) && StatusKnown(q)
    requires job.id in q.status && q.status[job.id] == Failed ==> !Present(q, job.id)
    ensures UniqueIds(Enqueue(q, maxDepth, job).0) && StatusKnown(Enqueue(q, maxDepth, job).0)
  {
    var (q', answer) := Enqueue(q, maxDepth, job);
    if answer.Accepted? {
      EnqueueKeepsIdsUniqueIff(q, maxDepth, job);
      assert Unfinished(q') == Unfinished(q) + multiset{Encoded(job)};
    }
  }

  lemma StartKeepsIdsUnique<B>(q: QueueState<B>)
    requires Clean(q) && UniqueIds(q) && StatusKnown(q)
    ensures UniqueIds(StartNext(q).0) && StatusKnown(StartNext(q).0)
  {
    StartShrinks(q);
    if StartNext(q).1.Some? {
      var before, after := StartMovesOneJob(q);
      FewerJobsStayUnique(q, StartNext(q).0);
    }
  }

  lemma ReleaseShrinks<B>(q: QueueState<B>, job: Job<B>)
    requires Encoded(job) in q.processing
    ensures Unfinished(Release(q, job)) <= Unfinished(q)
  {
    var p := q.processing;
    var i := RemoveFirstSplits(p, Encoded(job));
    assert p == p[..i] + [p[i]] + p[i + 1..];
  }

  lemma StepKeepsIdsUnique<B>(w: World<B>, maxDepth: nat, step: Step<B>)
    requires Good(w.q) && UniqueIds(w.q) && StatusKnown(w.q) && Serialised(w, step)
    ensures UniqueIds(Next(w, maxDepth, step).q) && StatusKnown(Next(w, maxDepth, step).q)
  {
    var q' := Next(w, maxDepth, step).q;
    match step
    case EnqueueStep(job) => SerialisedEnqueueKeepsIdsUnique(w.q, maxDepth, job);
    case StartStep => StartKeepsIdsUnique(w.q);
    case SettleStep(job, ok) => FewerJobsStayUnique(w.q, q');
    case ReleaseStep(job) =>
      if Encoded(job) in w.q.processing {
        ReleaseShrinks(w.q, job);
        FewerJobsStayUnique(w.q, q');
      }
    case RestartStep => FewerJobsStayUnique(w.q, q');
  }

  /** Job ids stay unique over the waiting and processing lists, through restarts as well. */
  lemma {:induction false} IdsStayUnique<B>(w: World<B>, maxDepth: nat, steps: seq<Step<B>>)
    requires Good(w.q) && UniqueIds(w.q) && StatusKnown(w.q) && SerialisedHistory(w, maxDepth, steps)
    ensures UniqueIds(History(w, maxDepth, steps).q) && StatusKnown(History(w, maxDepth, steps).q)
    decreases |steps|
  {
    if steps != [] {
      StepKeepsIdsUnique(w, maxDepth, steps[0]);
      StepKeepsGood(w, maxDepth, steps[0]);
      IdsStayUnique(Next(w, maxDepth, steps[0]), maxDepth, steps[1..]);
    }
  }
}
