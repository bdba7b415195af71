/** What becomes of a job in the dispatcher: how it is accepted, which one is taken, how it ends, and who blocks whom. */
module DispatcherOutcomes {
  import opened JobTypes
  import opened TextOrder
  import opened JobQueues
  import opened Dispatchers
  import opened DispatcherTheorems

  // ── accepting ─────────────────────────────────────────────────────

  /** An accepted job waits with no attempt made and everything the caller asked for; without a positive limit of its
      own it gets the one of its kind. */
  lemma AcceptedJobExactly(d: Dispatch, spec: JobSpec, jobId: string, nowMs: int)
    requires DispatchInv(d) && jobId !in d.queue.byId && spec.jobKey !in d.known
    ensures var (d', accepted) := Submit(d, spec, jobId, nowMs);
            && accepted.Some? && jobId in d'.queue.byId && d'.queue.byId[jobId].job == accepted.value
            && jobId in d'.queue.pendingIds && d'.queue.byId.Keys == d.queue.byId.Keys + {jobId}
            && var job := accepted.value;
            && job.jobId == jobId && job.jobKey == spec.jobKey && job.kind == spec.kind
            && job.executionClass == spec.executionClass && job.sessionId == spec.sessionId && job.agentId == spec.agentId
            && job.idempotencyKey == spec.idempotencyKey && job.retriable == spec.retriable
            && job.parentRunId == spec.parentRunId && job.parentJobId == spec.parentJobId
            && job.status == JobPending && job.attempts == 0 && job.createdAt == nowMs
            && job.startedAt == None && job.completedAt == None && job.error == None && !job.ownershipAccepted
            && (spec.maxAttempts > 0 ==> job.maxAttempts == spec.maxAttempts)
            && (spec.maxAttempts <= 0 ==>
                  && (job.maxAttempts == 1 <==> spec.kind in {TaskRun, MaintenanceFull})
                  && (job.maxAttempts == 2 <==> spec.kind in {MemoryMigrate, MaintenanceReplayProjection})
                  && (job.maxAttempts == 3 <==> spec.kind in {SearchRebuild, MaintenanceRebuildDerived, CognitionThinker})
                  && (job.maxAttempts == 4 <==> spec.kind == MemoryOrganize))
  {
    SubmitAnswers(d, spec, jobId, nowMs);
  }

  /** The answer of the duplicate check by the state of the known job. */
  lemma DuplicateActionExactly(known: map<string, Job>, jobKey: string)
    ensures CheckDuplicate(known, jobKey).Accept? <==> jobKey !in known
    ensures CheckDuplicate(known, jobKey).Coalesce? <==> jobKey in known && known[jobKey].status == JobPending
    ensures CheckDuplicate(known, jobKey).Drop? <==> jobKey in known && known[jobKey].status == JobRunning
    ensures CheckDuplicate(known, jobKey).Noop? <==>
              jobKey in known && known[jobKey].status in {JobCompleted, JobFailed, JobCancelled}
  {
  }

  // ── order of service ──────────────────────────────────────────────

  /** Classes served no later than the given one: user turns, delegated tasks, memory migration with thinker jobs,
      the other index and maintenance work, and last full maintenance with autonomy. */
  function UpTo(c: ExecutionClass): set<ExecutionClass> {
    var first, second := {InteractiveUserTurn}, {InteractiveDelegatedTask};
    var third := {BackgroundMemoryMigrate, BackgroundCognitionThinker};
    var fourth := {BackgroundMemoryOrganize, BackgroundSearchRebuild, BackgroundMaintenanceReplay,
                   BackgroundMaintenanceRebuildDerived};
    var fifth := {BackgroundMaintenanceFull, BackgroundAutonomy};
    if c in first then first
    else if c in second then first + second
    else if c in third then first + second + third
    else if c in fourth then first + second + third + fourth
    else first + second + third + fourth + fifth
  }

  lemma PriorityIsUpTo(a: ExecutionClass, b: ExecutionClass)
    ensures a in UpTo(b) <==> ClassPriority(a) <= ClassPriority(b)
  {
  }

  /** No runnable pending job of an earlier class is passed over for the selected one, within classes served alike none
      that was created earlier, and at the same time none with a smaller id. */
  lemma SelectionServesInOrder(d: Dispatch, other: Job)
    requires QueueInv(d.queue) && PendingJob(d.queue, other) && CanRun(d.inFlight, other)
    ensures SelectNextRunnable(d).Some?
    ensures var chosen := SelectNextRunnable(d).value;
            && chosen.executionClass in UpTo(other.executionClass)
            && (other.executionClass in UpTo(chosen.executionClass) ==>
                  && chosen.createdAt <= other.createdAt
                  && (chosen.createdAt == other.createdAt ==> chosen.jobId == other.jobId || TextLess(chosen.jobId, other.jobId)))
  {
    SelectionExactly(d);
    var chosen := SelectNextRunnable(d).value;
    assert SelectLeq(chosen, other);
    PriorityIsUpTo(chosen.executionClass, other.executionClass);
    PriorityIsUpTo(other.executionClass, chosen.executionClass);
  }

  /** The same for the queue's own dequeue, with enqueue order as the last word. */
  lemma DequeueServesInOrder(q: QueueState, first: string, other: string)
    requires QueueInv(q) && IsNext(q, first) && other in q.pendingIds && other != first
    ensures first in q.byId && other in q.byId
    ensures var a, b := q.byId[first], q.byId[other];
            && a.job.executionClass in UpTo(b.job.executionClass)
            && (b.job.executionClass in UpTo(a.job.executionClass) ==>
                  && a.job.createdAt <= b.job.createdAt
                  && (a.job.createdAt == b.job.createdAt ==> a.enqueueSeq < b.enqueueSeq))
  {
    PriorityIsUpTo(q.byId[first].job.executionClass, q.byId[other].job.executionClass);
    PriorityIsUpTo(q.byId[other].job.executionClass, q.byId[first].job.executionClass);
  }

  // ── starting and ending ───────────────────────────────────────────

  /** One stored job changed into `job`, as both queue and dispatcher see it; every other job is as before. */
  ghost predicate OnlyJobBecomes(d: Dispatch, d': Dispatch, id: string, job: Job) {
    && id in d.queue.byId && d'.queue.byId == d.queue.byId[id := d.queue.byId[id].(job := job)]
    && job.jobKey in d'.known && d'.known[job.jobKey] == job
    && d'.workers == d.workers
  }

  /** A call that finds a runnable job either starts it, counting the attempt, or, if nobody works on its kind, ends it
      as failed with the kind named; a call that finds none changes nothing. */
  lemma StartExactly(d: Dispatch, nowMs: int)
    requires DispatchInv(d)
    ensures var (d', reply) := Begin(d, nowMs);
            match SelectNextRunnable(d)
            case None => reply == NothingToRun && d' == d
            case Some(next) =>
              var id := next.jobId;
              if next.kind in d.workers then
                && reply.Started? && OnlyJobBecomes(d, d', id, reply.running)
                && reply.running.status == JobRunning && reply.running.attempts == next.attempts + 1
                && reply.running.startedAt == Some(nowMs) && reply.running.error == None && reply.running.ownershipAccepted
                && SameRequest(next, reply.running) && reply.running.completedAt == next.completedAt
                && d'.frames == d.frames[id := next]
              else
                && reply.FailedNoWorker? && OnlyJobBecomes(d, d', id, reply.job)
                && reply.job.status == JobFailed && reply.job.completedAt == Some(nowMs)
                && reply.job.error == Some("No worker registered for job kind: " + KindName(next.kind))
                && reply.job.attempts == next.attempts && SameRequest(next, reply.job) && d'.frames == d.frames
  {
    SelectionExactly(d);
    var next := SelectNextRunnable(d);
    if next.Some? {
      var job := if next.value.kind in d.workers then MarkedRunning(next.value, nowMs)
                 else MarkedFailed(next.value, NoWorker(next.value.kind), nowMs);
      StoreKeepsKnown(d, next.value.jobId, job);
      StoredBecomes(d, next.value.jobId, job);
    }
  }

  /** What no step of the dispatcher changes about a job. */
  predicate SameRequest(a: Job, b: Job) {
    && a.jobId == b.jobId && SameKeyFields(a, b) && a.executionClass == b.executionClass
    && a.maxAttempts == b.maxAttempts && a.retriable == b.retriable && a.createdAt == b.createdAt
  }

  lemma StoredBecomes(d: Dispatch, id: string, job: Job)
    requires QueueInv(d.queue) && id in d.queue.byId && job.jobId == id && job.jobKey == d.queue.byId[id].job.jobKey
    ensures OnlyJobBecomes(d, Store(d, id, job), id, job)
  {
  }

  /** When a suspended call resumes: a worker that returned leaves its job completed; one that threw leaves it waiting
      again exactly if it is retriable with attempts left, and failed otherwise, with the message kept. */
  lemma EndExactly(d: Dispatch, id: string, result: WorkerResult, nowMs: int)
    requires DispatchInv(d) && id in d.frames
    ensures id in d.queue.byId
    ensures var job, d' := d.queue.byId[id].job, Finish(d, id, result, nowMs);
            && id in d'.queue.byId && d'.frames == d.frames - {id}
            && var job' := d'.queue.byId[id].job;
            && OnlyJobBecomes(d, d', id, job') && SameRequest(job, job') && job'.attempts == job.attempts
            && job'.startedAt == job.startedAt
            && match result
               case WorkerReturned =>
                 job'.status == JobCompleted && job'.completedAt == Some(nowMs) && job'.error == job.error
               case WorkerThrew(message) =>
                 && job'.error == Some(message)
                 && if job.retriable && job.attempts < job.maxAttempts
                    then job'.status == JobPending && job'.completedAt == job.completedAt
                    else job'.status == JobFailed && job'.completedAt == Some(nowMs)
  {
    StoredBecomes(d, id, AfterWork(d.queue.byId[id].job, result, nowMs));
  }

  // ── draining ──────────────────────────────────────────────────────

  /** Job `id` was pending and is completed; all others are as before. */
  ghost predicate Completes(before: map<string, StoredJob>, after: map<string, StoredJob>, id: string, nowMs: int) {
    && after.Keys == before.Keys && id in before && before[id].job.status.JobPending?
    && after[id].job.status == JobCompleted && after[id].job.completedAt == Some(nowMs)
    && after[id].job.kind == before[id].job.kind
    && forall other :: other in before && other != id ==> after[other] == before[other]
  }

  lemma ChangedTwice(before: map<string, StoredJob>, between: map<string, StoredJob>, after: map<string, StoredJob>,
                     id: string, started: StoredJob, ended: StoredJob, nowMs: int)
    requires id in before && before[id].job.status.JobPending?
    requires between == before[id := started] && after == between[id := ended]
    requires ended.job.status == JobCompleted && ended.job.completedAt == Some(nowMs) && ended.job.kind == before[id].job.kind
    ensures Completes(before, after, id, nowMs)
  {
  }

  /** The first half of a tick whose job is served. */
  lemma GoodStart(d: Dispatch, result: WorkerResult, nowMs: int) returns (d1: Dispatch, id: string)
    requires DispatchInv(d) && SelectNextRunnable(d).Some? && SelectNextRunnable(d).value.kind in d.workers
    ensures d1 == Begin(d, nowMs).0 && id in d1.frames && id in d1.queue.byId && d1.workers == d.workers
    ensures id in d.queue.byId && d.queue.byId[id].job.status.JobPending?
    ensures d1.queue.byId == d.queue.byId[id := d1.queue.byId[id]]
    ensures d1.queue.byId[id].job.kind == d.queue.byId[id].job.kind
    ensures ProcessNext(d, result, nowMs) == (Finish(d1, id, result, nowMs), true)
  {
    SelectionExactly(d);
    d1, id := Begin(d, nowMs).0, SelectNextRunnable(d).value.jobId;
    var started := StartedRow(d, nowMs);
  }

  lemma StartedRow(d: Dispatch, nowMs: int) returns (started: StoredJob)
    requires DispatchInv(d) && SelectNextRunnable(d).Some? && SelectNextRunnable(d).value.kind in d.workers
    ensures var next, d1 := SelectNextRunnable(d).value, Begin(d, nowMs).0;
            && d1.workers == d.workers && next.jobId in d1.frames && Begin(d, nowMs).1.Started?
            && Begin(d, nowMs).1.running.jobId == next.jobId
            && d1.queue.byId == d.queue.byId[next.jobId := started] && started.job.kind == next.kind
  {
    StartExactly(d, nowMs);
    started := Begin(d, nowMs).0.queue.byId[SelectNextRunnable(d).value.jobId];
  }

  lemma GoodEnd(d: Dispatch, id: string, nowMs: int) returns (ended: StoredJob)
    requires DispatchInv(d) && id in d.frames && id in d.queue.byId
    ensures var d' := Finish(d, id, WorkerReturned, nowMs);
            d'.workers == d.workers && d'.queue.byId == d.queue.byId[id := ended]
    ensures ended.job.status == JobCompleted && ended.job.completedAt == Some(nowMs)
    ensures ended.job.kind == d.queue.byId[id].job.kind
  {
    EndExactly(d, id, WorkerReturned, nowMs);
    ended := Finish(d, id, WorkerReturned, nowMs).queue.byId[id];
  }

  /** One whole tick whose job is served and whose worker returns. */
  lemma GoodTick(d: Dispatch, nowMs: int) returns (id: string)
    requires DispatchInv(d) && SelectNextRunnable(d).Some? && SelectNextRunnable(d).value.kind in d.workers
    ensures var (d', more) := ProcessNext(d, WorkerReturned, nowMs);
            more && d'.workers == d.workers && Completes(d.queue.byId, d'.queue.byId, id, nowMs)
  {
    var d1;
    d1, id := GoodStart(d, WorkerReturned, nowMs);
    BeginKeeps(d, nowMs);
    var ended := GoodEnd(d1, id, nowMs);
    ChangedTwice(d.queue.byId, d1.queue.byId, Finish(d1, id, WorkerReturned, nowMs).queue.byId, id,
                 d1.queue.byId[id], ended, nowMs);
  }

  ghost predicate AllServed(byId: map<string, StoredJob>, workers: set<JobKind>) {
    forall id :: id in byId && byId[id].job.status.JobPending? ==> byId[id].job.kind in workers
  }

  /** What was pending is completed, and all else is as before. */
  ghost predicate AllCompleted(before: map<string, StoredJob>, after: map<string, StoredJob>, nowMs: int) {
    && after.Keys == before.Keys
    && forall id :: id in before ==>
         if before[id].job.status.JobPending?
         then after[id].job.status == JobCompleted && after[id].job.completedAt == Some(nowMs)
         else after[id] == before[id]
  }

  lemma OneThenAll(before: map<string, StoredJob>, between: map<string, StoredJob>, after: map<string, StoredJob>,
                   id: string, workers: set<JobKind>, nowMs: int)
    requires Completes(before, between, id, nowMs)
    ensures AllServed(before, workers) ==> AllServed(between, workers)
    ensures AllCompleted(between, after, nowMs) ==> AllCompleted(before, after, nowMs)
  {
  }

  /** While anything is pending and every kind is served, a tick completes some job. */
  lemma ServedTick(d: Dispatch, nowMs: int) returns (id: string)
    requires DispatchInv(d) && AllServed(d.queue.byId, d.workers) && ProcessNext(d, WorkerReturned, nowMs).1
    ensures var d1 := ProcessNext(d, WorkerReturned, nowMs).0;
            d1.workers == d.workers && Completes(d.queue.byId, d1.queue.byId, id, nowMs)
  {
    SelectionExactly(d);
    assert SelectNextRunnable(d).Some?;
    id := GoodTick(d, nowMs);
  }

  /** A tick with a good worker brings the queue closer to having completed everything. */
  lemma TickServes(d: Dispatch, nowMs: int, after: map<string, StoredJob>)
    requires DispatchInv(d) && AllServed(d.queue.byId, d.workers) && ProcessNext(d, WorkerReturned, nowMs).1
    ensures var d1 := ProcessNext(d, WorkerReturned, nowMs).0;
            && AllServed(d1.queue.byId, d1.workers)
            && (AllCompleted(d1.queue.byId, after, nowMs) ==> AllCompleted(d.queue.byId, after, nowMs))
  {
    var id := ServedTick(d, nowMs);
    OneThenAll(d.queue.byId, ProcessNext(d, WorkerReturned, nowMs).0.queue.byId, after, id, d.workers, nowMs);
  }

  /** Ticking until a tick does nothing: whatever the workers return or throw, within as many productive ticks as
      attempts are left, every job has ended. If every kind is served and every worker returns, all that was pending is
      completed and every other job is as it was. */
  ghost function Drain(d: Dispatch, results: nat -> WorkerResult, nowMs: int, tick: nat): (r: (Dispatch, nat))
    requires DispatchInv(d) && d.frames == map[]
    ensures DispatchInv(r.0) && r.0.frames == map[]
    ensures forall id :: id in r.0.queue.byId ==>
              !r.0.queue.byId[id].job.status.JobPending? && !r.0.queue.byId[id].job.status.JobRunning?
    ensures r.1 <= tick + Measure(d.queue)
    ensures AllServed(d.queue.byId, d.workers) && (forall n: nat :: results(n) == WorkerReturned)
            ==> AllCompleted(d.queue.byId, r.0.queue.byId, nowMs)
    decreases Measure(d.queue)
  {
    TickDecreases(d, results(tick), nowMs);
    var (d', more) := ProcessNext(d, results(tick), nowMs);
    if more then
      var r := Drain(d', results, nowMs, tick + 1);
      DrainStep(d, results, nowMs, tick, r.0.queue.byId);
      r
    else (d', tick)
  }

  lemma DrainStep(d: Dispatch, results: nat -> WorkerResult, nowMs: int, tick: nat, after: map<string, StoredJob>)
    requires DispatchInv(d) && ProcessNext(d, results(tick), nowMs).1
    ensures var d1 := ProcessNext(d, results(tick), nowMs).0;
            AllServed(d.queue.byId, d.workers) && results(tick) == WorkerReturned ==>
              && AllServed(d1.queue.byId, d1.workers)
              && (AllCompleted(d1.queue.byId, after, nowMs) ==> AllCompleted(d.queue.byId, after, nowMs))
  {
    if AllServed(d.queue.byId, d.workers) && results(tick) == WorkerReturned { TickServes(d, nowMs, after); }
  }

  // ── who blocks whom ───────────────────────────────────────────────

  /** Agent and session as the migration key spells them. */
  function MigrationPair(job: Job): string {
    (if job.agentId.Some? then job.agentId.value else "unknown-agent") + ":"
    + (if job.sessionId.Some? then job.sessionId.value else "unknown-session")
  }

  lemma MigrationKeyIsPair(a: Job, b: Job)
    requires a.kind == MemoryMigrate && b.kind == MemoryMigrate
    ensures ConcurrencyKey(a) == ConcurrencyKey(b) <==> MigrationPair(a) == MigrationPair(b)
  {
    KeySpellsPair(a);
    KeySpellsPair(b);
    Framed("memory.migrate:", MigrationPair(a), ":1");
    Framed("memory.migrate:", MigrationPair(b), ":1");
  }

  lemma KeySpellsPair(job: Job)
    requires job.kind == MemoryMigrate
    ensures ConcurrencyKey(job) == "memory.migrate:" + MigrationPair(job) + ":1"
  {
  }

  lemma Framed(head: string, middle: string, tail: string)
    ensures (head + middle + tail)[|head|..|head + middle + tail| - |tail|] == middle
  {
  }

  /** In every state of every run, of the migrations of one agent and session at most one runs, and a waiting one may
      start exactly when none does. Ids that contain colons can make two pairs count as one. */
  lemma OneMigrationPerSession(states: seq<Dispatch>, ops: seq<Op>, n: nat, job: Job)
    requires IsOpRun(states, ops) && n < |states| && job.kind == MemoryMigrate
    ensures var byId := states[n].queue.byId;
            && (forall a, b :: RunsMigration(byId, a, job) && RunsMigration(byId, b, job) ==> a == b)
            && (CanRun(states[n].inFlight, job) <==> forall id :: !RunsMigration(byId, id, job))
  {
    MutualExclusion(states, ops, n, job);
    OpRunKeeps(states, ops, n);
    InFlightAreKeys(states[n]);
    RunnableExactlyWhenKeyFree(states[n].inFlight, job);
    var byId := states[n].queue.byId;
    var running := RunningWith(byId, ConcurrencyKey, ConcurrencyKey(job));
    forall id ensures id in running <==> RunsMigration(byId, id, job) {
      if id in byId && byId[id].job.status.JobRunning? && Exclusive(byId[id].job.kind) {
        if ConcurrencyKey(byId[id].job) == ConcurrencyKey(job) { SameKeySameKind(byId[id].job, job); }
        if byId[id].job.kind == MemoryMigrate { MigrationKeyIsPair(byId[id].job, job); }
      }
    }
    OneAtMost(running);
  }

  ghost predicate RunsMigration(byId: map<string, StoredJob>, id: string, job: Job) {
    && id in byId && byId[id].job.status.JobRunning? && byId[id].job.kind == MemoryMigrate
    && MigrationPair(byId[id].job) == MigrationPair(job)
  }

  lemma OneAtMost(ids: set<string>)
    requires |ids| <= 1
    ensures forall a, b :: a in ids && b in ids ==> a == b
  {
    forall a, b | a in ids && b in ids ensures a == b {
      if a != b { TwoIn(ids, a, b); }
    }
  }

  lemma TwoIn(ids: set<string>, a: string, b: string)
    requires a in ids && b in ids && a != b
    ensures |ids| >= 2
  {
    assert |ids - {a} - {b}| == |ids| - 2;
  }

  /** Search rebuilds, and each kind of maintenance, run one at a time in the whole process. */
  lemma OneRunPerGlobalKind(states: seq<Dispatch>, ops: seq<Op>, n: nat, a: string, b: string)
    requires IsOpRun(states, ops) && n < |states| && a in states[n].queue.byId && b in states[n].queue.byId
    requires states[n].queue.byId[a].job.status == JobRunning && states[n].queue.byId[b].job.status == JobRunning
    requires states[n].queue.byId[a].job.kind == states[n].queue.byId[b].job.kind
    requires states[n].queue.byId[a].job.kind in
               {SearchRebuild, MaintenanceReplayProjection, MaintenanceRebuildDerived, MaintenanceFull}
    ensures a == b
  {
    var byId := states[n].queue.byId;
    MutualExclusion(states, ops, n, byId[a].job);
    var running := RunningWith(byId, ConcurrencyKey, ConcurrencyKey(byId[a].job));
    assert a in running && b in running;
    OneAtMost(running);
  }

  /** Whom a task run belongs to: the first of these that it names. */
  function ParentOf(job: Job): string {
    if job.parentRunId.Some? then job.parentRunId.value
    else if job.parentJobId.Some? then job.parentJobId.value
    else if job.idempotencyKey.Some? then job.idempotencyKey.value
    else if job.sessionId.Some? then job.sessionId.value
    else "default-parent"
  }

  lemma TaskKeySpellsParent(job: Job)
    requires job.kind == TaskRun || job.kind == CognitionThinker
    ensures ConcurrencyKey(job) == "task.run:" + ParentOf(job) + ":1"
  {
  }

  /** Task runs share a key exactly if they share a parent, and thinker jobs take their keys the same way; a task run
      may start exactly while its key is free, a thinker job always. */
  lemma TaskKeysAreParents(inFlight: set<string>, a: Job, b: Job)
    requires a.kind in {TaskRun, CognitionThinker} && b.kind in {TaskRun, CognitionThinker}
    ensures ConcurrencyKey(a) == ConcurrencyKey(b) <==> ParentOf(a) == ParentOf(b)
    ensures a.kind == TaskRun ==> (CanRun(inFlight + {ConcurrencyKey(b)}, a) ==> ParentOf(a) != ParentOf(b))
    ensures a.kind == TaskRun && ConcurrencyKey(a) !in inFlight ==>
              (CanRun(inFlight + {ConcurrencyKey(b)}, a) <==> ParentOf(a) != ParentOf(b))
    ensures a.kind == CognitionThinker ==> CanRun(inFlight, a)
  {
    TaskKeySpellsParent(a);
    TaskKeySpellsParent(b);
    Framed("task.run:", ParentOf(a), ":1");
    Framed("task.run:", ParentOf(b), ":1");
  }

  /** The cap of two for memory organization never holds a job back: all such jobs share one key, and a set counts it
      once. */
  lemma OrganizeIsNeverHeldBack(inFlight: set<string>, job: Job)
    requires AllAreKeys(inFlight) && job.kind == MemoryOrganize
    ensures CanRun(inFlight, job)
  {
    var found := set key | key in inFlight && ORGANIZE_GLOBAL <= key;
    forall key | key in found ensures key == ORGANIZE_GLOBAL {
      assert IsKey(key);
      var other: Job :| ConcurrencyKey(other) == key;
      OrganizePrefix(other);
    }
    assert found <= {ORGANIZE_GLOBAL};
    AtMostOneIn(found, ORGANIZE_GLOBAL);
  }

  lemma AtMostOneIn(keys: set<string>, key: string)
    requires keys <= {key}
    ensures |keys| <= 1
  {
    assert keys == {} || keys == {key};
  }

  lemma OrganizePrefix(other: Job)
    requires ORGANIZE_GLOBAL <= ConcurrencyKey(other)
    ensures ConcurrencyKey(other) == ORGANIZE_GLOBAL
  {
    KeyHasItsClass(other);
    var key := ConcurrencyKey(other);
    assert key[0] == 'm' && key[1] == 'e' && key[8] == 'r' && key[6] == '.';
  }
}
