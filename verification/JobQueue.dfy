/** The backend's ingest queue: two Redis lists (waiting and processing), the status hash used for
    deduplication, and the set of tenants that have a job running.  `QueueState` is the state on
    which the properties are stated; `SyncQueue` is the service that changes it in place. */
module JobQueue {
  import opened Common
  import opened Sequences

  /** `tenant:module:run:batchIndex`, the key of the status hash. */
  datatype JobId = JobId(tenant: Tenant, m: nat, run: nat, index: nat)

  datatype Job<B> = Job(id: JobId, body: B, enqueuedAt: nat)

  /** A list entry: a serialized job, text that does not parse as one, or a removal marker. */
  datatype Entry<B> = Encoded(job: Job<B>) | Junk(text: string) | Marker(uuid: nat)

  datatype JobStatus = Queued | Processing | Done | Failed

  datatype QueueState<B(==)> = QueueState(
    queue: seq<Entry<B>>,
    processing: seq<Entry<B>>,
    status: map<JobId, JobStatus>,
    active: set<Tenant>)

  datatype Answer = Accepted | Duplicate(status: JobStatus) | Busy

  const SCAN_LIMIT := 101

  // ---------------------------------------------------------------------------------------------
  // List commands
  // ---------------------------------------------------------------------------------------------

  function RemoveAt<T>(s: seq<T>, i: nat): seq<T> {
    if i < |s| then s[..i] + s[i + 1..] else s
  }

  /** `LREM key 1 x`: drop the first occurrence. */
  function RemoveFirst<T(==)>(s: seq<T>, x: T): seq<T> {
    if s == [] then []
    else if s[0] == x then s[1..]
    else [s[0]] + RemoveFirst(s[1..], x)
  }

  /** `LSET key i marker` and then `LREM key 1 marker`; setting beyond the end has no effect. */
  function RemoveThroughMarker<T(==)>(s: seq<T>, i: nat, marker: T): seq<T> {
    RemoveFirst(if i < |s| then s[i := marker] else s, marker)
  }

  lemma {:induction false} RemoveFirstAbsent<T>(s: seq<T>, x: T)
    requires x !in s
    ensures RemoveFirst(s, x) == s
  {
    if s != [] {
      RemoveFirstAbsent(s[1..], x);
      assert s == [s[0]] + s[1..];
    }
  }

  lemma RemoveAtCons<T>(s: seq<T>, i: nat)
    requires 0 < i < |s|
    ensures RemoveAt(s, i) == [s[0]] + RemoveAt(s[1..], i - 1)
  {
  }

  lemma {:induction false} RemoveAtPosition<T>(s: seq<T>, i: nat, marker: T)
    requires i < |s| && s[i] == marker && marker !in s[..i]
    ensures RemoveFirst(s, marker) == RemoveAt(s, i)
  {
    if i > 0 {
      assert s[0] != marker by { assert s[..i][0] == s[0]; }
      assert marker !in s[1..][..i - 1] by { assert s[1..][..i - 1] == s[..i][1..]; }
      RemoveAtPosition(s[1..], i - 1, marker);
      RemoveAtCons(s, i);
    }
  }

  /** With a marker that is not in the list, setting it and removing it deletes exactly that position. */
  lemma FreshMarkerDeletesPosition<T>(s: seq<T>, i: nat, marker: T)
    requires marker !in s
    ensures RemoveThroughMarker(s, i, marker) == RemoveAt(s, i)
  {
    if i >= |s| {
      RemoveFirstAbsent(s, marker);
    } else {
      var marked := s[i := marker];
      assert marked[..i] == s[..i];
      RemoveAtPosition(marked, i, marker);
      assert RemoveAt(marked, i) == RemoveAt(s, i) by { assert marked[i + 1..] == s[i + 1..]; }
    }
  }

  lemma {:induction false} RemoveFirstSplits<T>(s: seq<T>, x: T) returns (i: nat)
    requires x in s
    ensures i < |s| && s[i] == x && RemoveFirst(s, x) == s[..i] + s[i + 1..]
  {
    if s[0] == x {
      i := 0;
    } else {
      assert s == [s[0]] + s[1..];
      i := RemoveFirstSplits(s[1..], x);
      i := i + 1;
      RemoveAtCons(s, i);
    }
  }

  // ---------------------------------------------------------------------------------------------
  // The steps of the queue
  // ---------------------------------------------------------------------------------------------

  function Encode<B>(jobs: seq<Job<B>>): seq<Entry<B>> {
    seq(|jobs|, i requires 0 <= i < |jobs| => Encoded(jobs[i]))
  }

  function Depth<B>(q: QueueState<B>): nat {
    |q.queue| + |q.processing| + |q.active|
  }

  function Enqueue<B>(q: QueueState<B>, maxDepth: nat, job: Job<B>): (QueueState<B>, Answer) {
    if job.id in q.status && q.status[job.id] != Failed then (q, Duplicate(q.status[job.id]))
    else if Depth(q) >= maxDepth then (q, Busy)
    else (q.(status := q.status[job.id := Queued], queue := q.queue + [Encoded(job)]), Accepted)
  }

  /** What comes of posting a job: it is a duplicate exactly while an earlier job of its id is queued, in process or
      done; otherwise it is refused exactly when the jobs waiting and in processing and the active tenants together
      have reached the limit; an accepted job stands at the end of the list and shows as queued. */
  lemma AnswerMeaning<B>(q: QueueState<B>, maxDepth: nat, job: Job<B>)
    ensures var (q', answer) := Enqueue(q, maxDepth, job);
            var known := job.id in q.status && q.status[job.id] in {Queued, Processing, Done};
            && (answer.Duplicate? <==> known)
            && (answer.Duplicate? ==> answer.status == q.status[job.id])
            && (answer.Busy? <==> !known && |q.queue| + |q.processing| + |q.active| >= maxDepth)
            && (!answer.Accepted? ==> q' == q)
            && (answer.Accepted? ==>
                  && q'.queue == q.queue + [Encoded(job)] && q'.processing == q.processing && q'.active == q.active
                  && job.id in q'.status && q'.status[job.id] == Queued
                  && (forall id :: id != job.id ==>
                        (id in q'.status <==> id in q.status) && (id in q.status ==> q'.status[id] == q.status[id])))
  {
  }

  function Snapshot<B>(q: QueueState<B>): seq<Entry<B>> {
    if |q.queue| <= SCAN_LIMIT then q.queue else q.queue[..SCAN_LIMIT]
  }

  /** The scan over a snapshot of the list, as written: positions are those of the snapshot, although
      every removal shifts the list itself. */
  function Scan<B>(q: QueueState<B>, snapshot: seq<Entry<B>>, i: nat): (QueueState<B>, Option<Job<B>>)
    decreases |snapshot| - i
  {
    if i >= |snapshot| then (q, None)
    else
      match snapshot[i]
      case Encoded(job) =>
        if job.id.tenant in q.active then Scan(q, snapshot, i + 1)
        else (q.(queue := RemoveAt(q.queue, i), processing := q.processing + [snapshot[i]]), Some(job))
      case _ => Scan(q.(queue := RemoveAt(q.queue, i)), snapshot, i + 1)
  }

  function TakeNextJob<B>(q: QueueState<B>): (QueueState<B>, Option<Job<B>>) {
    Scan(q, Snapshot(q), 0)
  }

  /** A taken job starts: its tenant becomes active and its status says so. */
  function Start<B>(q: QueueState<B>, job: Job<B>): QueueState<B> {
    q.(active := q.active + {job.id.tenant}, status := q.status[job.id := Processing])
  }

  function Settle<B>(q: QueueState<B>, job: Job<B>, ok: bool): QueueState<B> {
    q.(status := q.status[job.id := if ok then Done else Failed])
  }

  function Release<B>(q: QueueState<B>, job: Job<B>): QueueState<B> {
    q.(processing := RemoveFirst(q.processing, Encoded(job)), active := q.active - {job.id.tenant})
  }

  /** The process dies and comes back: nothing is active, and what was processing goes to the tail. */
  function Restart<B>(q: QueueState<B>): QueueState<B> {
    q.(queue := q.queue + q.processing, processing := [], active := {})
  }

  // ---------------------------------------------------------------------------------------------
  // What a scan does when every entry parses
  // ---------------------------------------------------------------------------------------------

  ghost predicate Clean<B>(q: QueueState<B>) {
    && (forall e <- q.queue :: e.Encoded?)
    && (forall e <- q.processing :: e.Encoded?)
  }

  /** On a list of jobs a scan takes the first job in the scanned prefix whose tenant is idle, removes
      exactly that job, and takes nothing only if every tenant of the prefix is active. */
  lemma {:induction false} ScanTakesFirstIdle<B>(q: QueueState<B>, i: nat) returns (at: nat)
    requires Clean(q) && i <= |Snapshot(q)|
    ensures var (q', job) := Scan(q, Snapshot(q), i);
            match job
            case None =>
              && q' == q
              && (forall k :: i <= k < |Snapshot(q)| ==> q.queue[k].job.id.tenant in q.active)
            case Some(j) =>
              && i <= at < |Snapshot(q)|
              && q.queue[at] == Encoded(j) && j.id.tenant !in q.active
              && (forall k :: i <= k < at ==> q.queue[k].job.id.tenant in q.active)
              && q' == q.(queue := q.queue[..at] + q.queue[at + 1..], processing := q.processing + [Encoded(j)])
    decreases |Snapshot(q)| - i
  {
    at := i;
    if i < |Snapshot(q)| {
      assert Snapshot(q)[i] == q.queue[i];
      if q.queue[i].job.id.tenant in q.active {
        at := ScanTakesFirstIdle(q, i + 1);
      }
    }
  }

  /** Of a list of jobs the first of an idle tenant is taken if it stands at position 100 or before, out of the
      middle of the list and to the end of processing; otherwise nothing is taken and nothing changes. */
  lemma TakesFirstIdleUpTo100<B>(q: QueueState<B>, at: nat)
    requires Clean(q) && at <= |q.queue|
    requires forall k :: 0 <= k < at ==> q.queue[k].job.id.tenant in q.active
    requires at < |q.queue| ==> q.queue[at].job.id.tenant !in q.active
    ensures TakeNextJob(q) ==
            if at < |q.queue| && at <= 100
            then (q.(queue := q.queue[..at] + q.queue[at + 1..], processing := q.processing + [q.queue[at]]),
                  Some(q.queue[at].job))
            else (q, None)
  {
    var found := ScanTakesFirstIdle(q, 0);
  }

  // ---------------------------------------------------------------------------------------------
  // What a scan does on any list
  // ---------------------------------------------------------------------------------------------

  function At<T>(s: seq<T>, p: nat): seq<T> {
    if p < |s| then [s[p]] else []
  }

  function TailFrom<T>(s: seq<T>, p: nat): seq<T> {
    if p <= |s| then s[p..] else []
  }

  /** The entries that a scan deletes, read off the list as it was before: with `r` malformed entries passed,
      deleting position `i` deletes what stood at position `i + r`, if anything did. */
  function Deleted<B>(original: seq<Entry<B>>, snapshot: seq<Entry<B>>, active: set<Tenant>, i: nat,
                      r: nat): seq<Entry<B>>
    decreases |snapshot| - i
  {
    if i >= |snapshot| then []
    else
      match snapshot[i]
      case Encoded(job) =>
        if job.id.tenant in active then Deleted(original, snapshot, active, i + 1, r) else At(original, i + r)
      case _ => At(original, i + r) + Deleted(original, snapshot, active, i + 1, r + 1)
  }

  function Count<T(==)>(s: seq<T>, x: T): nat {
    multiset(s)[x]
  }

  lemma CountConcat<T>(a: seq<T>, b: seq<T>, x: T)
    ensures Count(a + b, x) == Count(a, x) + Count(b, x)
  {
  }

  lemma RemoveAtTail<T>(s: seq<T>, original: seq<T>, i: nat, r: nat)
    requires TailFrom(s, i) == TailFrom(original, i + r)
    ensures TailFrom(RemoveAt(s, i), i + 1) == TailFrom(original, i + 1 + (r + 1))
    ensures TailFrom(s, i + 1) == TailFrom(original, i + 1 + r)
  {
    var tail := TailFrom(s, i);
    if i < |s| {
      assert s[i + 1..] == tail[1..] == original[i + r + 1..];
      assert TailFrom(RemoveAt(s, i), i + 1) == TailFrom(tail, 2);
    } else {
      assert tail == [] && i + r >= |original|;
    }
  }

  lemma RemoveAtCount<T>(s: seq<T>, original: seq<T>, i: nat, r: nat, x: T)
    requires TailFrom(s, i) == TailFrom(original, i + r)
    ensures Count(RemoveAt(s, i), x) + Count(At(original, i + r), x) == Count(s, x)
  {
    if i < |s| {
      assert TailFrom(s, i)[0] == s[i] == original[i + r];
      assert s == s[..i] + [s[i]] + s[i + 1..];
    } else {
      assert TailFrom(s, i) == [] && i + r >= |original|;
    }
  }

  /** A scan takes out of the list exactly the entries named by `Deleted`. */
  lemma {:induction false} ScanDeletes<B>(q: QueueState<B>, original: seq<Entry<B>>, snapshot: seq<Entry<B>>, i: nat,
                                          r: nat, e: Entry<B>)
    requires TailFrom(q.queue, i) == TailFrom(original, i + r)
    ensures Count(Scan(q, snapshot, i).0.queue, e) + Count(Deleted(original, snapshot, q.active, i, r), e)
            == Count(q.queue, e)
    decreases |snapshot| - i
  {
    if i < |snapshot| {
      RemoveAtTail(q.queue, original, i, r);
      RemoveAtCount(q.queue, original, i, r, e);
      if !snapshot[i].Encoded? {
        ScanDeletes(q.(queue := RemoveAt(q.queue, i)), original, snapshot, i + 1, r + 1, e);
        CountConcat(At(original, i + r), Deleted(original, snapshot, q.active, i + 1, r + 1), e);
      } else if snapshot[i].job.id.tenant in q.active {
        ScanDeletes(q, original, snapshot, i + 1, r, e);
      }
    }
  }

  function Started<B>(job: Option<Job<B>>): seq<Entry<B>> {
    if job.Some? then [Encoded(job.value)] else []
  }

  /** The job it takes is one of the snapshot whose tenant is idle, and goes to the end of processing. */
  lemma {:induction false} ScanProcesses<B>(q: QueueState<B>, snapshot: seq<Entry<B>>, i: nat)
    ensures var (q', job) := Scan(q, snapshot, i);
            && q'.processing == q.processing + Started(job) && q'.active == q.active && q'.status == q.status
            && (job.Some? ==> Encoded(job.value) in snapshot && job.value.id.tenant !in q.active)
    decreases |snapshot| - i
  {
    if i >= |snapshot| {
      assert q.processing + [] == q.processing;
    } else if !snapshot[i].Encoded? {
      ScanProcesses(q.(queue := RemoveAt(q.queue, i)), snapshot, i + 1);
    } else if snapshot[i].job.id.tenant in q.active {
      ScanProcesses(q, snapshot, i + 1);
    }
  }

  ghost predicate SameJobs<B(!new)>(a: multiset<Entry<B>>, b: multiset<Entry<B>>) {
    forall job: Job<B> :: a[Encoded(job)] == b[Encoded(job)]
  }

  /** Whatever the list holds, taking a job loses and copies none if and only if the entries deleted from it
      are, besides malformed ones, exactly the job taken. */
  lemma TakeConservesIff<B(!new)>(q: QueueState<B>)
    ensures var (q', job) := TakeNextJob(q);
            SameJobs(multiset(q'.queue) + multiset(q'.processing), multiset(q.queue) + multiset(q.processing))
            <==> SameJobs(multiset(Deleted(q.queue, Snapshot(q), q.active, 0, 0)), multiset(Started(job)))
  {
    var (q', job) := TakeNextJob(q);
    var deleted, taken := Deleted(q.queue, Snapshot(q), q.active, 0, 0), Started(job);
    var after, before := multiset(q'.queue) + multiset(q'.processing), multiset(q.queue) + multiset(q.processing);
    ScanProcesses(q, Snapshot(q), 0);
    forall e: Entry<B>
      ensures after[e] + multiset(deleted)[e] == before[e] + multiset(taken)[e]
    {
      ScanDeletes(q, q.queue, Snapshot(q), 0, 0, e);
      CountConcat(q.processing, taken, e);
    }
    SumsAgreeIff(after, multiset(deleted), before, multiset(taken));
  }

  lemma SumsAgreeIff<B(!new)>(a: multiset<Entry<B>>, b: multiset<Entry<B>>, c: multiset<Entry<B>>,
                              d: multiset<Entry<B>>)
    requires forall e :: a[e] + b[e] == c[e] + d[e]
    ensures SameJobs(a, c) <==> SameJobs(b, d)
  {
    forall job: Job<B>
      ensures a[Encoded(job)] == c[Encoded(job)] <==> b[Encoded(job)] == d[Encoded(job)]
    {
    }
  }

  /** How many entries from position `i` up to `n` are malformed. */
  function Malformed<B>(s: seq<Entry<B>>, i: nat, n: nat): nat
    requires n <= |s|
    decreases n - i
  {
    if i >= n then 0 else (if s[i].Encoded? then 0 else 1) + Malformed(s, i + 1, n)
  }

  /** The job at `at` is the first of the snapshot whose tenant is idle. */
  ghost predicate IsTaken<B>(q: QueueState<B>, at: nat) {
    && at < |Snapshot(q)| && q.queue[at].Encoded? && q.queue[at].job.id.tenant !in q.active
    && forall k :: 0 <= k < at && q.queue[k].Encoded? ==> q.queue[k].job.id.tenant in q.active
  }

  lemma {:induction false} ScanTakes<B>(q: QueueState<B>, now: QueueState<B>, at: nat, i: nat)
    requires IsTaken(q, at) && i <= at && now.active == q.active
    ensures Scan(now, Snapshot(q), i).1 == Some(q.queue[at].job)
    decreases at - i
  {
    assert Snapshot(q)[i] == q.queue[i];
    if i < at {
      ScanTakes(q, if q.queue[i].Encoded? then now else now.(queue := RemoveAt(now.queue, i)), at, i + 1);
    }
  }

  /** What a scan deletes for the malformed entries from position `i` up to `at`, with `r` of them passed: for
      each the entry that stands as many places further as malformed ones precede it. */
  function DeletedForMalformed<B>(s: seq<Entry<B>>, at: nat, i: nat, r: nat): seq<Entry<B>>
    requires at <= |s|
    decreases at - i
  {
    if i >= at then []
    else if s[i].Encoded? then DeletedForMalformed(s, at, i + 1, r)
    else At(s, i + r) + DeletedForMalformed(s, at, i + 1, r + 1)
  }

  /** One entry of the scan before the job that is taken. */
  lemma DeletedNext<B>(q: QueueState<B>, at: nat, i: nat, r: nat)
    requires IsTaken(q, at) && i < at
    ensures var rest := if q.queue[i].Encoded? then r else r + 1;
            Deleted(q.queue, Snapshot(q), q.active, i, r)
            == (if q.queue[i].Encoded? then [] else At(q.queue, i + r))
              + Deleted(q.queue, Snapshot(q), q.active, i + 1, rest)
  {
    assert Snapshot(q)[i] == q.queue[i];
  }

  lemma DeletedLast<B>(q: QueueState<B>, at: nat, r: nat)
    requires IsTaken(q, at)
    ensures Deleted(q.queue, Snapshot(q), q.active, at, r) == At(q.queue, at + r)
  {
    assert Snapshot(q)[at] == q.queue[at];
  }

  /** The same step of the two other functions. */
  lemma ForMalformedNext<B>(s: seq<Entry<B>>, at: nat, i: nat, r: nat)
    requires i < at <= |s|
    ensures var own, rest := if s[i].Encoded? then [] else At(s, i + r), if s[i].Encoded? then r else r + 1;
            && DeletedForMalformed(s, at, i, r) == own + DeletedForMalformed(s, at, i + 1, rest)
            && at + r + Malformed(s, i, at) == at + rest + Malformed(s, i + 1, at)
  {
  }

  lemma Regroup<T>(whole: seq<T>, own: seq<T>, later: seq<T>, init: seq<T>, rest: seq<T>, last: seq<T>)
    requires whole == own + later && later == rest + last && init == own + rest
    ensures whole == init + last
  {
  }

  lemma {:induction false} DeletedUpTo<B>(q: QueueState<B>, at: nat, i: nat, r: nat)
    requires IsTaken(q, at) && i <= at
    ensures Deleted(q.queue, Snapshot(q), q.active, i, r)
            == DeletedForMalformed(q.queue, at, i, r) + At(q.queue, at + r + Malformed(q.queue, i, at))
    decreases at - i
  {
    if i == at {
      DeletedLast(q, at, r);
    } else {
      var own := if q.queue[i].Encoded? then [] else At(q.queue, i + r);
      var rest := if q.queue[i].Encoded? then r else r + 1;
      DeletedNext(q, at, i, r);
      ForMalformedNext(q.queue, at, i, r);
      DeletedUpTo(q, at, i + 1, rest);
      Regroup(Deleted(q.queue, Snapshot(q), q.active, i, r), own, Deleted(q.queue, Snapshot(q), q.active, i + 1, rest),
              DeletedForMalformed(q.queue, at, i, r), DeletedForMalformed(q.queue, at, i + 1, rest),
              At(q.queue, at + rest + Malformed(q.queue, i + 1, at)));
    }
  }

  lemma {:induction false} NothingForMalformed<B>(s: seq<Entry<B>>, at: nat, i: nat, r: nat)
    requires at <= |s| && Malformed(s, i, at) == 0
    ensures DeletedForMalformed(s, at, i, r) == []
    decreases at - i
  {
    if i < at {
      NothingForMalformed(s, at, i + 1, r);
    }
  }

  /** With `m` malformed entries before the job that is taken, the scan deletes one entry for each of them and,
      for the job, what stood `m` places further: nothing if the list ended before, and the job itself if and
      only if `m` is zero or an equal entry stood there. */
  lemma TakenJobIsDeletedIff<B>(q: QueueState<B>, at: nat)
    requires IsTaken(q, at)
    ensures var m, deleted := Malformed(q.queue, 0, at), Deleted(q.queue, Snapshot(q), q.active, 0, 0);
            var forMalformed := DeletedForMalformed(q.queue, at, 0, 0);
            && TakeNextJob(q).1 == Some(q.queue[at].job)
            && (at + m >= |q.queue| ==> deleted == forMalformed)
            && (at + m < |q.queue| ==> deleted == forMalformed + [q.queue[at + m]])
            && (m == 0 ==> deleted == [q.queue[at]])
            && (deleted == forMalformed + [q.queue[at]]
                <==> m == 0 || (at + m < |q.queue| && q.queue[at + m] == q.queue[at]))
  {
    DeletedUpTo(q, at, 0, 0);
    if Malformed(q.queue, 0, at) == 0 {
      NothingForMalformed(q.queue, at, 0, 0);
    }
    ScanTakes(q, q, at, 0);
    var last := At(q.queue, at + Malformed(q.queue, 0, at));
    AppendInjective(DeletedForMalformed(q.queue, at, 0, 0), last, [q.queue[at]]);
  }

  lemma AppendInjective<T>(s: seq<T>, a: seq<T>, b: seq<T>)
    ensures s + a == s + b <==> a == b
  {
    assert (s + a)[|s|..] == a && (s + b)[|s|..] == b;
  }

  /** Behind one malformed entry, taking a job is right if and only if an equal entry follows it directly:
      otherwise the next job is deleted, or, at the end of the list, the job stays waiting as well. */
  lemma OneMalformedEntryIff<B(!new)>(q: QueueState<B>, at: nat, bad: nat)
    requires IsTaken(q, at) && bad < at && !q.queue[bad].Encoded?
    requires forall k :: 0 <= k < at && k != bad ==> q.queue[k].Encoded?
    ensures var (q', job) := TakeNextJob(q);
            && job == Some(q.queue[at].job)
            && (SameJobs(multiset(q'.queue) + multiset(q'.processing), multiset(q.queue) + multiset(q.processing))
                <==> at + 1 < |q.queue| && q.queue[at + 1] == q.queue[at])
  {
    SkipActive(q, at, 0, bad);
    SkipActiveAfter(q, at, bad + 1);
    ScanTakes(q, q, at, 0);
    assert Snapshot(q)[bad] == q.queue[bad];
    TakeConservesIff(q);
    var next := At(q.queue, at + 1);
    var deleted := [q.queue[bad]] + next;
    assert Deleted(q.queue, Snapshot(q), q.active, 0, 0) == deleted;
    var job := q.queue[at].job;
    if SameJobs(multiset(deleted), multiset{Encoded(job)}) {
      assert multiset(deleted)[Encoded(job)] == 1;
      assert Encoded(job) in deleted;
    }
  }

  lemma {:induction false} SkipActive<B>(q: QueueState<B>, at: nat, i: nat, bad: nat)
    requires IsTaken(q, at) && i <= bad < at && forall k :: 0 <= k < bad ==> q.queue[k].Encoded?
    ensures Deleted(q.queue, Snapshot(q), q.active, i, 0) == Deleted(q.queue, Snapshot(q), q.active, bad, 0)
    decreases bad - i
  {
    if i < bad {
      assert Snapshot(q)[i] == q.queue[i];
      SkipActive(q, at, i + 1, bad);
    }
  }

  lemma {:induction false} SkipActiveAfter<B>(q: QueueState<B>, at: nat, i: nat)
    requires IsTaken(q, at) && i <= at && forall k :: i <= k < at ==> q.queue[k].Encoded?
    ensures Deleted(q.queue, Snapshot(q), q.active, i, 1) == At(q.queue, at + 1)
    decreases at - i
  {
    assert Snapshot(q)[i] == q.queue[i];
    if i < at {
      SkipActiveAfter(q, at, i + 1);
    }
  }

  /** For instance, with entries malformed, A, B the scan moves A to processing but deletes B from the list. */
  lemma MalformedEntryLosesAJob<B>(a: Job<B>, b: Job<B>, text: string)
    requires a.id.tenant != b.id.tenant
    ensures var q := QueueState([Junk(text), Encoded(a), Encoded(b)], [], map[], {});
            TakeNextJob(q) == (q.(queue := [Encoded(a)], processing := [Encoded(a)]), Some(a))
  {
    var q := QueueState([Junk(text), Encoded(a), Encoded(b)], [], map[], {});
    var q1 := q.(queue := [Encoded(a), Encoded(b)]);
    assert Snapshot(q) == q.queue;
    assert RemoveAt(q.queue, 0) == q1.queue;
    assert RemoveAt(q1.queue, 1) == [Encoded(a)];
    assert Scan(q1, q.queue, 1) == TakeNextJob(q);
    assert q1.processing + [Encoded(a)] == [Encoded(a)];
  }

  /** One round of the drain loop. */
  function StartNext<B>(q: QueueState<B>): (QueueState<B>, Option<Job<B>>) {
    var (taken, job) := TakeNextJob(q);
    if job.None? then (taken, None) else (Start(taken, job.value), job)
  }

  lemma StartShrinks<B>(q: QueueState<B>)
    requires Clean(q)
    ensures var (q', job) := StartNext(q);
            && Clean(q')
            && (job.None? ==> q' == q)
            && (job.Some? ==> |q'.queue| < |q.queue|)
  {
    var at := ScanTakesFirstIdle(q, 0);
  }

  /** A started job moves from the middle of the list to the end of processing. */
  lemma StartMovesOneJob<B>(q: QueueState<B>) returns (before: seq<Entry<B>>, after: seq<Entry<B>>)
    requires Clean(q) && StartNext(q).1.Some?
    ensures var (q', job) := StartNext(q);
            var e := Encoded(job.value);
            && q.queue == before + [e] + after
            && q'.queue == before + after
            && q'.processing == q.processing + [e]
            && q'.active == q.active + {job.value.id.tenant}
            && q'.status == q.status[job.value.id := Processing]
            && job.value.id.tenant !in q.active
            && (forall b <- before :: b.job.id.tenant in q.active)
  {
    var at := ScanTakesFirstIdle(q, 0);
    before, after := q.queue[..at], q.queue[at + 1..];
  }

  /** The tenants that have a job waiting and none running. */
  ghost function WaitingTenants<B>(q: QueueState<B>): set<Tenant> {
    set e | e in q.queue && e.Encoded? && e.job.id.tenant !in q.active :: e.job.id.tenant
  }

  /** Every job started uses up one of them, whatever else the scan deletes. */
  lemma StartUsesUpATenant<B>(q: QueueState<B>)
    requires StartNext(q).1.Some?
    ensures WaitingTenants(StartNext(q).0) < WaitingTenants(q)
  {
    var (q', job) := StartNext(q);
    ScanProcesses(q, Snapshot(q), 0);
    assert Encoded(job.value) in q.queue;
    forall e | e in q'.queue
      ensures e in q.queue
    {
      ScanDeletes(q, q.queue, Snapshot(q), 0, 0, e);
      assert e in multiset(q'.queue) && e in multiset(q.queue);
    }
    assert job.value.id.tenant in WaitingTenants(q);
  }

  function DrainAll<B>(q: QueueState<B>): (QueueState<B>, seq<Job<B>>)
    decreases WaitingTenants(q)
  {
    var (q', job) := StartNext(q);
    if job.None? then (q', [])
    else
      StartUsesUpATenant(q);
      var (final, later) := DrainAll(q');
      (final, [job.value] + later)
  }

  /** After a drain no job in the scanned prefix, the positions up to 100, belongs to an idle tenant. */
  lemma {:induction false} DrainLeavesNobodyWaiting<B>(q: QueueState<B>)
    requires Clean(q)
    ensures var q' := DrainAll(q).0;
            && Clean(q') && (forall e <- Snapshot(q') :: e.job.id.tenant in q'.active)
            && (forall k :: 0 <= k <= 100 && k < |q'.queue| ==> q'.queue[k].job.id.tenant in q'.active)
    decreases WaitingTenants(q)
  {
    StartShrinks(q);
    if StartNext(q).1.Some? {
      StartUsesUpATenant(q);
    }
    if StartNext(q).1.Some? {
      DrainLeavesNobodyWaiting(StartNext(q).0);
    } else {
      var at := ScanTakesFirstIdle(q, 0);
    }
  }

  /** The jobs a drain starts belong to different tenants, all idle before; nobody else becomes active. */
  lemma {:induction false} DrainStartsIdleTenants<B>(q: QueueState<B>)
    requires Clean(q)
    ensures var (q', started) := DrainAll(q);
            && (forall t :: t in q'.active <==> t in q.active || exists j <- started :: j.id.tenant == t)
            && (forall j <- started :: j.id.tenant !in q.active)
            && (forall i, j :: 0 <= i < j < |started| ==> started[i].id.tenant != started[j].id.tenant)
    decreases WaitingTenants(q)
  {
    StartShrinks(q);
    if StartNext(q).1.Some? {
      StartUsesUpATenant(q);
    }
    var (q1, job) := StartNext(q);
    if job.Some? {
      var before, after := StartMovesOneJob(q);
      DrainStartsIdleTenants(q1);
      assert forall j <- DrainAll(q1).1 :: j.id.tenant != job.value.id.tenant;
    }
  }

  /** They move from the waiting list to the end of processing, in the order they were started. */
  lemma {:induction false} DrainMovesJobs<B>(q: QueueState<B>)
    requires Clean(q)
    ensures var (q', started) := DrainAll(q);
            && q'.processing == q.processing + Encode(started)
            && multiset(q'.queue) + multiset(q'.processing) == multiset(q.queue) + multiset(q.processing)
    decreases WaitingTenants(q)
  {
    StartShrinks(q);
    if StartNext(q).1.Some? {
      StartUsesUpATenant(q);
    }
    var (q1, job) := StartNext(q);
    if job.None? {
      assert Encode<B>([]) == [];
    } else {
      var before, after := StartMovesOneJob(q);
      DrainMovesJobs(q1);
      var later := DrainAll(q1).1;
      EncodeCons(job.value, later);
      ConcatAssoc(q.processing, [Encoded(job.value)], Encode(later));
    }
  }

  lemma EncodeCons<B>(job: Job<B>, later: seq<Job<B>>)
    ensures Encode([job] + later) == [Encoded(job)] + Encode(later)
  {
  }

  // ---------------------------------------------------------------------------------------------
  // The service
  // ---------------------------------------------------------------------------------------------

  class SyncQueue<B(==)> {
    const maxDepth: nat
    var queue: seq<Entry<B>>
    var processing: seq<Entry<B>>
    var status: map<JobId, JobStatus>
    var activeTenants: set<Tenant>
    var stopped: bool
    var uuids: nat

    function State(): QueueState<B>
      reads this
    {
      QueueState(queue, processing, status, activeTenants)
    }

    /** Removal markers are made from UUIDs that were never used before. */
    ghost predicate Valid()
      reads this
    {
      forall n :: n >= uuids ==> Marker(n) !in queue
    }

    constructor (maxDepth: nat, queue: seq<Entry<B>>, processing: seq<Entry<B>>, status: map<JobId, JobStatus>)
      requires forall n :: Marker(n) !in queue
      requires forall n :: Marker(n) !in processing
      ensures Valid() && this.maxDepth == maxDepth
      ensures State() == Restart(QueueState(queue, processing, status, {}))
    {
      this.maxDepth, this.queue, this.processing, this.status := maxDepth, queue, processing, status;
      activeTenants, stopped, uuids := {}, false, 0;
      new;
      RecoverProcessingJobs();
    }

    method RecoverProcessingJobs()
      requires activeTenants == {}
      modifies this`queue, this`processing
      ensures State() == Restart(old(State()))
    {
      if |processing| == 0 {
        return;
      }
      var i := 0;
      while i < |processing|
        invariant i <= |processing|
        invariant queue == old(queue) + processing[..i]
        invariant processing == old(processing)
      {
        queue := queue + [processing[i]];
        i := i + 1;
      }
      processing := [];
    }

    method EnqueueJob(job: Job<B>) returns (answer: Answer)
      requires Valid()
      modifies this`queue, this`status
      ensures Valid()
      ensures (State(), answer) == Enqueue(old(State()), maxDepth, job)
    {
      if job.id in status && status[job.id] != Failed {
        return Duplicate(status[job.id]);
      }
      var depth := |queue| + |processing| + |activeTenants|;
      if depth >= maxDepth {
        return Busy;
      }
      status := status[job.id := Queued];
      queue := queue + [Encoded(job)];
      return Accepted;
    }

    method RemoveQueuedIndex(index: nat)
      requires Valid()
      modifies this`queue, this`uuids
      ensures Valid()
      ensures queue == RemoveAt(old(queue), index)
    {
      var marker := Marker(uuids);
      FreshMarkerDeletesPosition(queue, index, marker);
      uuids := uuids + 1;
      if index < |queue| {
        queue := queue[index := marker];
      }
      queue := RemoveFirst(queue, marker);
    }

    method TakeNext() returns (job: Option<Job<B>>)
      requires Valid()
      modifies this`queue, this`processing, this`uuids
      ensures Valid()
      ensures (State(), job) == TakeNextJob(old(State()))
    {
      var length := |queue|;
      if length == 0 {
        return None;
      }
      var candidates := if length <= SCAN_LIMIT then queue else queue[..SCAN_LIMIT];
      var index := 0;
      while index < |candidates|
        invariant Valid() && index <= |candidates|
        invariant Scan(State(), candidates, index) == TakeNextJob(old(State()))
      {
        var raw := candidates[index];
        match raw {
          case Encoded(j) =>
            if j.id.tenant !in activeTenants {
              RemoveQueuedIndex(index);
              processing := processing + [raw];
              return Some(j);
            }
          case _ =>
            RemoveQueuedIndex(index);
        }
        index := index + 1;
      }
      return None;
    }

    method StartNextJob() returns (job: Option<Job<B>>)
      requires Valid()
      modifies this`queue, this`processing, this`status, this`activeTenants, this`uuids
      ensures Valid()
      ensures (State(), job) == StartNext(old(State()))
    {
      job := TakeNext();
      if job.Some? {
        activeTenants := activeTenants + {job.value.id.tenant};
        status := status[job.value.id := Processing];
      }
    }

    /** The drain loop: take a job, mark its tenant active, start it, until a scan takes nothing. */
    method Drain() returns (started: seq<Job<B>>)
      requires Valid()
      modifies this`queue, this`processing, this`status, this`activeTenants, this`uuids
      ensures Valid()
      ensures (State(), started) == if stopped then (old(State()), []) else DrainAll(old(State()))
    {
      started := [];
      while !stopped
        invariant Valid()
        invariant stopped ==> State() == old(State()) && started == []
        invariant DrainAll(old(State())).0 == DrainAll(State()).0
        invariant DrainAll(old(State())).1 == started + DrainAll(State()).1
        decreases WaitingTenants(State())
      {
        ghost var before := State();
        var job := StartNextJob();
        if job.Some? {
          StartUsesUpATenant(before);
        }
        if job.None? {
          assert started + [] == started;
          return;
        }
        ConcatAssoc(started, [job.value], DrainAll(State()).1);
        started := started + [job.value];
      }
    }

    method SettleJob(job: Job<B>, ok: bool)
      modifies this`status
      ensures State() == Settle(old(State()), job, ok)
    {
      status := status[job.id := if ok then Done else Failed];
    }

    method ReleaseJob(job: Job<B>)
      modifies this`processing, this`activeTenants
      ensures State() == Release(old(State()), job)
    {
      processing := RemoveFirst(processing, Encoded(job));
      activeTenants := activeTenants - {job.id.tenant};
    }
  }
}
