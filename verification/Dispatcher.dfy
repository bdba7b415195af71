/** The in-memory dispatcher: submit, and processNext cut at the point where it awaits the worker. */
module Dispatchers {
  import opened JobTypes
  import opened Sorting
  import opened TextOrder
  import opened JobQueues

  function MaxAttemptsOf(kind: JobKind): nat {
    match kind
    case MemoryMigrate => 2
    case MemoryOrganize => 4
    case TaskRun => 1
    case SearchRebuild => 3
    case MaintenanceReplayProjection => 2
    case MaintenanceRebuildDerived => 3
    case MaintenanceFull => 1
    case CognitionThinker => 3
  }

  // ── concurrency keys ──────────────────────────────────────────────

  const SEARCH_REBUILD_GLOBAL := "search.rebuild:global"
  const ORGANIZE_GLOBAL := "memory.organize:global"
  const REPLAY_GLOBAL := "maintenance.replay_projection:global"
  const DERIVED_GLOBAL := "maintenance.rebuild_derived:global"
  const FULL_GLOBAL := "maintenance.full:global"

  function Or(a: Option<string>, b: string): string { if a.Some? then a.value else b }

  function ConcurrencyKey(job: Job): string {
    match job.kind
    case MemoryMigrate =>
      "memory.migrate:" + Or(job.agentId, "unknown-agent") + ":" + Or(job.sessionId, "unknown-session") + ":1"
    case MemoryOrganize => ORGANIZE_GLOBAL
    case SearchRebuild => SEARCH_REBUILD_GLOBAL
    case MaintenanceReplayProjection => REPLAY_GLOBAL
    case MaintenanceRebuildDerived => DERIVED_GLOBAL
    case MaintenanceFull => FULL_GLOBAL
    case _ =>
      "task.run:" + Or(job.parentRunId, Or(job.parentJobId, Or(job.idempotencyKey, Or(job.sessionId, "default-parent")))) + ":1"
  }

  /** How many in-flight keys start with the given text. */
  function CountPrefix(inFlight: set<string>, prefix: string): nat {
    |set key | key in inFlight && prefix <= key|
  }

  predicate CanRun(inFlight: set<string>, job: Job) {
    match job.kind
    case MemoryMigrate => ConcurrencyKey(job) !in inFlight
    case MemoryOrganize => CountPrefix(inFlight, ORGANIZE_GLOBAL) < 2
    case TaskRun => ConcurrencyKey(job) !in inFlight
    case SearchRebuild => CountPrefix(inFlight, SEARCH_REBUILD_GLOBAL) < 1
    case MaintenanceReplayProjection => CountPrefix(inFlight, REPLAY_GLOBAL) < 1
    case MaintenanceRebuildDerived => CountPrefix(inFlight, DERIVED_GLOBAL) < 1
    case MaintenanceFull => CountPrefix(inFlight, FULL_GLOBAL) < 1
    case CognitionThinker => true
  }

  /** The kinds whose key admits one worker at a time. */
  predicate Exclusive(kind: JobKind) {
    kind.MemoryMigrate? || kind.SearchRebuild? || kind.MaintenanceReplayProjection?
    || kind.MaintenanceRebuildDerived? || kind.MaintenanceFull?
  }

  /** Keys of different kinds differ, except that thinker jobs use keys of kind task.run. */
  function KeyClass(kind: JobKind): (char, char, char) {
    match kind
    case MemoryMigrate => ('m', 'i', '.')
    case MemoryOrganize => ('m', 'r', '.')
    case SearchRebuild => ('s', '-', '-')
    case MaintenanceReplayProjection => ('a', '.', 'p')
    case MaintenanceRebuildDerived => ('a', '.', 'b')
    case MaintenanceFull => ('a', '.', 'l')
    case _ => ('t', '-', '-')
  }

  /** Read off the distinguishing characters. */
  function ClassOfKey(key: string): (char, char, char)
    requires |key| >= 10
    requires key[0] == 'm' && key[1] == 'a' ==> |key| >= 15
  {
    if key[0] == 's' then ('s', '-', '-')
    else if key[0] == 't' then ('t', '-', '-')
    else if key[0] == 'm' && key[1] == 'a' then ('a', key[11], key[14])
    else (key[0], key[8], key[6])
  }

  lemma KeyHasItsClass(job: Job)
    ensures |ConcurrencyKey(job)| >= 10
    ensures ConcurrencyKey(job)[0] == 'm' && ConcurrencyKey(job)[1] == 'a' ==> |ConcurrencyKey(job)| >= 15
    ensures ClassOfKey(ConcurrencyKey(job)) == KeyClass(job.kind)
  {
  }

  lemma SameKeySameKind(a: Job, b: Job)
    requires ConcurrencyKey(a) == ConcurrencyKey(b)
    ensures a.kind == b.kind || (!Exclusive(a.kind) && !Exclusive(b.kind))
  {
    KeyHasItsClass(a);
    KeyHasItsClass(b);
  }

  /** For a global key, starting with it is being it, among the keys jobs can have. */
  lemma PrefixIsKey(a: Job, b: Job)
    requires Exclusive(a.kind) && !a.kind.MemoryMigrate? && ConcurrencyKey(a) <= ConcurrencyKey(b)
    ensures ConcurrencyKey(a) == ConcurrencyKey(b)
  {
    KeyHasItsClass(a);
    KeyHasItsClass(b);
    var ka, kb := ConcurrencyKey(a), ConcurrencyKey(b);
    assert ClassOfKey(ka) == ClassOfKey(kb);
  }

  ghost predicate AllAreKeys(inFlight: set<string>) {
    forall key :: key in inFlight ==> IsKey(key)
  }

  ghost predicate IsKey(key: string) {
    exists job: Job :: ConcurrencyKey(job) == key
  }

  /** For exclusive kinds, being runnable is having one's key free. */
  lemma RunnableExactlyWhenKeyFree(inFlight: set<string>, job: Job)
    requires AllAreKeys(inFlight) && Exclusive(job.kind)
    ensures CanRun(inFlight, job) <==> ConcurrencyKey(job) !in inFlight
  {
    if !job.kind.MemoryMigrate? {
      var key := ConcurrencyKey(job);
      var found := set k | k in inFlight && key <= k;
      forall k | k in found ensures k == key {
        assert IsKey(k);
        var other: Job :| ConcurrencyKey(other) == k;
        PrefixIsKey(job, other);
      }
      assert found == if key in inFlight then {key} else {};
    }
  }

  // ── dispatcher state ──────────────────────────────────────────────

  /** `frames` are the calls of processNext suspended at `await worker(running)`: by job id, the job each selected. */
  datatype Dispatch = Dispatch(
    queue: QueueState, known: map<string, Job>, inFlight: set<string>, workers: set<JobKind>, frames: map<string, Job>)

  datatype JobSpec = JobSpec(
    jobKey: string, kind: JobKind, executionClass: ExecutionClass, sessionId: Option<string>, agentId: Option<string>,
    idempotencyKey: Option<string>, parentRunId: Option<string>, parentJobId: Option<string>,
    maxAttempts: int, retriable: bool)

  datatype WorkerResult = WorkerReturned | WorkerThrew(message: string)

  function JobFromSpec(spec: JobSpec, jobId: string, nowMs: int): Job {
    Job(jobId, spec.jobKey, spec.kind, spec.executionClass, spec.sessionId, spec.agentId, spec.idempotencyKey,
        spec.parentRunId, spec.parentJobId, JobPending, 0,
        if spec.maxAttempts > 0 then spec.maxAttempts else MaxAttemptsOf(spec.kind),
        spec.retriable, nowMs, None, None, None, false)
  }

  datatype DedupAction = Accept | Coalesce | Drop | Noop

  function CheckDuplicate(known: map<string, Job>, jobKey: string): DedupAction {
    if jobKey !in known then Accept
    else if known[jobKey].status.JobPending? then Coalesce
    else if known[jobKey].status.JobRunning? then Drop
    else Noop
  }

  function Remember(known: map<string, Job>, q: QueueState, jobKey: string): map<string, Job> {
    var found := ByKey(q, jobKey);
    if found.Some? then known[found.value.jobKey := found.value] else known
  }

  function Submit(d: Dispatch, spec: JobSpec, jobId: string, nowMs: int): (Dispatch, Option<Job>) {
    var known := Remember(d.known, d.queue, spec.jobKey);
    if !CheckDuplicate(known, spec.jobKey).Accept? then (d.(known := known), None)
    else
      var job := JobFromSpec(spec, jobId, nowMs);
      (d.(queue := Enqueued(d.queue, job), known := known[job.jobKey := job]), Some(job))
  }

  // ── selection ─────────────────────────────────────────────────────

  predicate SelectLeq(a: Job, b: Job) {
    var pa, pb := ClassPriority(a.executionClass), ClassPriority(b.executionClass);
    || pa < pb
    || (pa == pb && a.createdAt < b.createdAt)
    || (pa == pb && a.createdAt == b.createdAt && TextLeq(a.jobId, b.jobId))
  }

  lemma SelectOrderIsTotal()
    ensures TotalPreorder(SelectLeq)
  {
    forall a: Job, b: Job ensures SelectLeq(a, b) || SelectLeq(b, a) { LessTotal(a.jobId, b.jobId); }
    forall a: Job, b: Job, c: Job | SelectLeq(a, b) && SelectLeq(b, c) ensures SelectLeq(a, c) {
      if TextLess(a.jobId, b.jobId) && TextLess(b.jobId, c.jobId) { LessTransitive(a.jobId, b.jobId, c.jobId); }
    }
  }

  function PendingJobs(q: QueueState, order: seq<string>): seq<Job> {
    if order == [] then []
    else
      (if order[0] in q.byId && q.byId[order[0]].job.status.JobPending? then [q.byId[order[0]].job] else [])
      + PendingJobs(q, order[1..])
  }

  function FirstRunnable(inFlight: set<string>, jobs: seq<Job>): Option<Job> {
    if jobs == [] then None
    else if CanRun(inFlight, jobs[0]) then Some(jobs[0])
    else FirstRunnable(inFlight, jobs[1..])
  }

  function SelectNextRunnable(d: Dispatch): Option<Job> {
    FirstRunnable(d.inFlight, StableSort(PendingJobs(d.queue, d.queue.order), SelectLeq))
  }

  lemma {:induction false} PendingJobsExactly(q: QueueState, order: seq<string>)
    requires forall id :: id in q.byId ==> q.byId[id].job.jobId == id
    ensures forall job :: job in PendingJobs(q, order) <==>
              job.jobId in order && job.jobId in q.byId && q.byId[job.jobId].job == job && job.status.JobPending?
  {
    if order != [] {
      PendingJobsExactly(q, order[1..]);
      forall job
        ensures job in PendingJobs(q, order) <==>
                job.jobId in order && job.jobId in q.byId && q.byId[job.jobId].job == job && job.status.JobPending?
      {
        assert job.jobId in order <==> job.jobId == order[0] || job.jobId in order[1..];
      }
    }
  }

  lemma {:induction false} FirstRunnableExactly(inFlight: set<string>, jobs: seq<Job>)
    requires Sorted(jobs, SelectLeq)
    ensures var r := FirstRunnable(inFlight, jobs);
            && (r.Some? ==> r.value in jobs && CanRun(inFlight, r.value)
                            && forall job :: job in jobs && CanRun(inFlight, job) ==> SelectLeq(r.value, job))
            && (r.None? ==> forall job :: job in jobs ==> !CanRun(inFlight, job))
  {
    if jobs != [] {
      FirstRunnableExactly(inFlight, jobs[1..]);
      assert SelectLeq(jobs[0], jobs[0]);
      forall job | job in jobs ensures job == jobs[0] || (job in jobs[1..] && SelectLeq(jobs[0], job)) { }
    }
  }

  predicate PendingJob(q: QueueState, job: Job) {
    job.jobId in q.byId && q.byId[job.jobId].job == job && job.status.JobPending?
  }

  /** The selected job is pending and runnable, and no runnable pending job precedes it; none is selected
      exactly when no pending job can run. */
  lemma SelectionExactly(d: Dispatch)
    requires QueueInv(d.queue)
    ensures var r := SelectNextRunnable(d);
            && (r.Some? ==> PendingJob(d.queue, r.value) && CanRun(d.inFlight, r.value)
                            && forall job :: PendingJob(d.queue, job) && CanRun(d.inFlight, job) ==> SelectLeq(r.value, job))
            && (r.None? <==> forall job :: PendingJob(d.queue, job) ==> !CanRun(d.inFlight, job))
  {
    var jobs := PendingJobs(d.queue, d.queue.order);
    PendingJobsExactly(d.queue, d.queue.order);
    SelectOrderIsTotal();
    SortSorted(jobs, SelectLeq);
    FirstRunnableExactly(d.inFlight, StableSort(jobs, SelectLeq));
    forall job ensures PendingJob(d.queue, job) <==> job in StableSort(jobs, SelectLeq) { }
  }

  // ── processNext ───────────────────────────────────────────────────

  function MarkedRunning(job: Job, nowMs: int): Job {
    job.(ownershipAccepted := true, status := JobRunning, startedAt := Some(nowMs), attempts := job.attempts + 1, error := None)
  }

  function MarkedCompleted(job: Job, nowMs: int): Job {
    job.(status := JobCompleted, completedAt := Some(nowMs))
  }

  function MarkedRetry(job: Job, message: string): Job {
    job.(status := JobPending, error := Some(message))
  }

  function MarkedFailed(job: Job, message: string, nowMs: int): Job {
    job.(status := JobFailed, completedAt := Some(nowMs), error := Some(message))
  }

  function NoWorker(kind: JobKind): string {
    "No worker registered for job kind: " + KindName(kind)
  }

  /** updateJob followed by the dispatcher remembering the job again. */
  function Store(d: Dispatch, id: string, job: Job): Dispatch
    requires id in d.queue.byId
  {
    var q := Updated(d.queue, id, job);
    d.(queue := q, known := Remember(d.known, q, job.jobKey))
  }

  function AfterStart(d: Dispatch, next: Job, nowMs: int): Dispatch
    requires next.jobId in d.queue.byId
  {
    Store(d, next.jobId, MarkedRunning(next, nowMs))
      .(inFlight := d.inFlight + {ConcurrencyKey(next)}, frames := d.frames[next.jobId := next])
  }

  function AfterEnd(d: Dispatch, id: string, job: Job): Dispatch
    requires id in d.frames && id in d.queue.byId
  {
    Store(d, id, job).(inFlight := d.inFlight - {ConcurrencyKey(d.frames[id])}, frames := d.frames - {id})
  }

  datatype BeginReply = NothingToRun | FailedNoWorker(job: Job) | Started(running: Job)

  /** From the call to the point where the worker is awaited; this part runs without interruption. */
  function Begin(d: Dispatch, nowMs: int): (Dispatch, BeginReply)
    requires QueueInv(d.queue)
  {
    var next := SelectNextRunnable(d);
    SelectionExactly(d);
    if next.None? then (d, NothingToRun)
    else if next.value.kind !in d.workers then
      var failed := MarkedFailed(next.value, NoWorker(next.value.kind), nowMs);
      (Store(d, next.value.jobId, failed), FailedNoWorker(failed))
    else
      (AfterStart(d, next.value, nowMs), Started(MarkedRunning(next.value, nowMs)))
  }

  function AfterWork(job: Job, result: WorkerResult, nowMs: int): Job {
    match result
    case WorkerReturned => MarkedCompleted(job, nowMs)
    case WorkerThrew(message) =>
      if job.retriable && job.attempts < job.maxAttempts then MarkedRetry(job, message)
      else MarkedFailed(job, message, nowMs)
  }

  /** The suspended call that runs job `id` resumes: its worker has returned or thrown. */
  function Finish(d: Dispatch, id: string, result: WorkerResult, nowMs: int): Dispatch
    requires id in d.frames && id in d.queue.byId
  {
    AfterEnd(d, id, AfterWork(d.queue.byId[id].job, result, nowMs))
  }
}
