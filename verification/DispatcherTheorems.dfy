/** Mutual exclusion of the dispatcher over re-entrant calls, and termination of draining. */
module DispatcherTheorems {
  import opened JobTypes
  import opened MapSums
  import opened JobQueues
  import opened Dispatchers

  // ── the invariant ─────────────────────────────────────────────────

  /** The dispatcher remembers every job of the queue as the queue has it. */
  ghost predicate KnownAgrees(known: map<string, Job>, q: QueueState) {
    && (forall k :: k in known <==> k in q.idByKey)
    && (forall k :: k in known && k in q.idByKey && q.idByKey[k] in q.byId ==> known[k] == q.byId[q.idByKey[k]].job)
  }

  /** The job key, and everything a concurrency key is made from. */
  predicate SameKeyFields(a: Job, b: Job) {
    && a.jobKey == b.jobKey && a.kind == b.kind && a.sessionId == b.sessionId && a.agentId == b.agentId
    && a.idempotencyKey == b.idempotencyKey && a.parentRunId == b.parentRunId && a.parentJobId == b.parentJobId
  }

  /** Suspended calls and running jobs are the same thing, seen from two sides. */
  ghost predicate FramesAgree(frames: map<string, Job>, byId: map<string, StoredJob>) {
    && (forall id :: id in frames <==> id in byId && byId[id].job.status.JobRunning?)
    && (forall id :: id in frames && id in byId ==> SameKeyFields(frames[id], byId[id].job))
  }

  /** The in-flight keys are those of the suspended calls, and no two calls of exclusive kinds share one. */
  ghost predicate KeysHeld(frames: map<string, Job>, inFlight: set<string>, keyOf: Job -> string) {
    && (forall key :: key in inFlight ==> exists id :: id in frames && keyOf(frames[id]) == key)
    && (forall id :: id in frames && Exclusive(frames[id].kind) ==> keyOf(frames[id]) in inFlight)
    && (forall a, b :: a in frames && b in frames && a != b && Exclusive(frames[a].kind) && Exclusive(frames[b].kind)
                       ==> keyOf(frames[a]) != keyOf(frames[b]))
  }

  predicate AttemptsFit(job: Job) {
    && (job.status.JobPending? ==> job.attempts < job.maxAttempts)
    && (job.status.JobRunning? ==> job.attempts <= job.maxAttempts)
  }

  ghost predicate AllFit(byId: map<string, StoredJob>) {
    forall id :: id in byId ==> AttemptsFit(byId[id].job)
  }

  ghost predicate DispatchInv(d: Dispatch) {
    && QueueInv(d.queue)
    && KnownAgrees(d.known, d.queue)
    && FramesAgree(d.frames, d.queue.byId)
    && KeysHeld(d.frames, d.inFlight, ConcurrencyKey)
    && AllFit(d.queue.byId)
  }

  lemma InFlightAreKeys(d: Dispatch)
    requires KeysHeld(d.frames, d.inFlight, ConcurrencyKey)
    ensures AllAreKeys(d.inFlight)
  {
    forall key | key in d.inFlight ensures IsKey(key) {
      var id :| id in d.frames && ConcurrencyKey(d.frames[id]) == key;
    }
  }

  // ── each operation keeps it ───────────────────────────────────────

  lemma StoreKeepsKnown(d: Dispatch, id: string, job: Job)
    requires QueueInv(d.queue) && KnownAgrees(d.known, d.queue)
    requires id in d.queue.byId && job.jobId == id && job.jobKey == d.queue.byId[id].job.jobKey
    ensures QueueInv(Store(d, id, job).queue) && KnownAgrees(Store(d, id, job).known, Store(d, id, job).queue)
    ensures Store(d, id, job).queue.byId == d.queue.byId[id := d.queue.byId[id].(job := job)]
  {
    UpdatedKeeps(d.queue, id, job);
    RememberAgrees(d, id, job);
  }

  lemma RememberAgrees(d: Dispatch, id: string, job: Job)
    requires KnownAgrees(d.known, d.queue) && id in d.queue.byId && job.jobId == id
    requires job.jobKey in d.queue.idByKey && d.queue.idByKey[job.jobKey] == id
    requires forall k :: k in d.queue.idByKey && d.queue.idByKey[k] == id ==> k == job.jobKey
    ensures KnownAgrees(Store(d, id, job).known, Store(d, id, job).queue)
  {
    var d' := Store(d, id, job);
    assert d'.queue.idByKey == d.queue.idByKey;
    assert d'.known == d.known[job.jobKey := job];
  }

  lemma StoreKeepsRest(byId: map<string, StoredJob>, id: string, stored: StoredJob)
    requires AllFit(byId) && AttemptsFit(stored.job)
    ensures AllFit(byId[id := stored])
  {
  }

  lemma SubmitKeeps(d: Dispatch, spec: JobSpec, jobId: string, nowMs: int)
    requires DispatchInv(d) && jobId !in d.queue.byId
    ensures DispatchInv(Submit(d, spec, jobId, nowMs).0)
    ensures Submit(d, spec, jobId, nowMs).1.Some? <==> spec.jobKey !in d.known
    ensures Submit(d, spec, jobId, nowMs).1.None? ==> Submit(d, spec, jobId, nowMs).0 == d
  {
    SubmitAnswers(d, spec, jobId, nowMs);
    if spec.jobKey !in d.known {
      var job := JobFromSpec(spec, jobId, nowMs);
      EnqueuedKeeps(d.queue, job);
      FreshJobIsFine(d.frames, d.queue.byId, jobId, StoredJob(job, d.queue.counter));
      EnqueuedKnown(d, job);
    }
  }

  /** A known key is refused without a trace, whatever the state of its job; any other is enqueued. */
  lemma SubmitAnswers(d: Dispatch, spec: JobSpec, jobId: string, nowMs: int)
    requires KnownAgrees(d.known, d.queue) && forall k :: k in d.queue.idByKey ==>
               d.queue.idByKey[k] in d.queue.byId && d.queue.byId[d.queue.idByKey[k]].job.jobKey == k
    ensures var job := JobFromSpec(spec, jobId, nowMs);
            Submit(d, spec, jobId, nowMs) ==
            if spec.jobKey in d.known then (d, None)
            else (d.(queue := Enqueued(d.queue, job), known := d.known[spec.jobKey := job]), Some(job))
  {
    assert Remember(d.known, d.queue, spec.jobKey) == d.known;
  }

  lemma FreshJobIsFine(frames: map<string, Job>, byId: map<string, StoredJob>, id: string, stored: StoredJob)
    requires FramesAgree(frames, byId) && AllFit(byId) && id !in byId
    requires stored.job.status.JobPending? && stored.job.attempts < stored.job.maxAttempts
    ensures FramesAgree(frames, byId[id := stored]) && AllFit(byId[id := stored])
  {
  }

  lemma EnqueuedKnown(d: Dispatch, job: Job)
    requires KnownAgrees(d.known, d.queue) && job.jobKey !in d.known && job.jobId !in d.queue.byId
    requires forall k :: k in d.queue.idByKey ==> d.queue.idByKey[k] in d.queue.byId
    ensures KnownAgrees(d.known[job.jobKey := job], Enqueued(d.queue, job))
  {
  }

  lemma KeyTaken(frames: map<string, Job>, inFlight: set<string>, keyOf: Job -> string, id: string, job: Job)
    requires KeysHeld(frames, inFlight, keyOf) && id !in frames
    requires Exclusive(job.kind) ==> keyOf(job) !in inFlight
    ensures KeysHeld(frames[id := job], inFlight + {keyOf(job)}, keyOf)
  {
    var frames', inFlight' := frames[id := job], inFlight + {keyOf(job)};
    forall key | key in inFlight' ensures exists other :: other in frames' && keyOf(frames'[other]) == key {
      if key in inFlight {
        var other :| other in frames && keyOf(frames[other]) == key;
        assert other in frames' && keyOf(frames'[other]) == key;
      } else {
        assert id in frames' && keyOf(frames'[id]) == key;
      }
    }
  }

  ghost predicate KeysTellKinds(keyOf: Job -> string) {
    forall a, b :: keyOf(a) == keyOf(b) ==> a.kind == b.kind || (!Exclusive(a.kind) && !Exclusive(b.kind))
  }

  lemma KeyReleased(frames: map<string, Job>, inFlight: set<string>, keyOf: Job -> string, id: string)
    requires KeysHeld(frames, inFlight, keyOf) && KeysTellKinds(keyOf) && id in frames
    ensures KeysHeld(frames - {id}, inFlight - {keyOf(frames[id])}, keyOf)
  {
    var frames', inFlight' := frames - {id}, inFlight - {keyOf(frames[id])};
    forall key | key in inFlight' ensures exists other :: other in frames' && keyOf(frames'[other]) == key {
      var other :| other in frames && keyOf(frames[other]) == key;
      assert other in frames' && keyOf(frames'[other]) == key;
    }
  }

  lemma BeginRunsFreeKey(d: Dispatch, nowMs: int)
    requires DispatchInv(d) && Begin(d, nowMs).1.Started?
    ensures var next := SelectNextRunnable(d);
            && next.Some? && PendingJob(d.queue, next.value) && next.value.kind in d.workers
            && (Exclusive(next.value.kind) ==> ConcurrencyKey(next.value) !in d.inFlight)
  {
    SelectionExactly(d);
    InFlightAreKeys(d);
    var next := SelectNextRunnable(d).value;
    if Exclusive(next.kind) { RunnableExactlyWhenKeyFree(d.inFlight, next); }
  }

  /** What the start of a job leaves in the tables. */
  lemma StartKeeps(d: Dispatch, next: Job, nowMs: int)
    requires DispatchInv(d) && PendingJob(d.queue, next)
    requires Exclusive(next.kind) ==> ConcurrencyKey(next) !in d.inFlight
    ensures DispatchInv(AfterStart(d, next, nowMs))
  {
    var id, running := next.jobId, MarkedRunning(next, nowMs);
    StoreKeepsKnown(d, id, running);
    RunningJobFits(d, next, nowMs);
    KeyTaken(d.frames, d.inFlight, ConcurrencyKey, id, next);
  }

  lemma RunningJobFits(d: Dispatch, next: Job, nowMs: int)
    requires AllFit(d.queue.byId) && FramesAgree(d.frames, d.queue.byId) && PendingJob(d.queue, next)
    ensures var byId := d.queue.byId[next.jobId := d.queue.byId[next.jobId].(job := MarkedRunning(next, nowMs))];
            AllFit(byId) && FramesAgree(d.frames[next.jobId := next], byId) && next.jobId !in d.frames
  {
    var stored := d.queue.byId[next.jobId].(job := MarkedRunning(next, nowMs));
    StoreKeepsRest(d.queue.byId, next.jobId, stored);
    StartFrames(d.frames, d.queue.byId, next.jobId, next, stored);
  }

  lemma StartFrames(frames: map<string, Job>, byId: map<string, StoredJob>, id: string, next: Job, stored: StoredJob)
    requires FramesAgree(frames, byId) && stored.job.status.JobRunning? && SameKeyFields(next, stored.job)
    ensures FramesAgree(frames[id := next], byId[id := stored])
  {
  }

  lemma EndFrames(frames: map<string, Job>, byId: map<string, StoredJob>, id: string, stored: StoredJob)
    requires FramesAgree(frames, byId) && !stored.job.status.JobRunning?
    ensures FramesAgree(frames - {id}, byId[id := stored])
  {
  }

  /** What ending a job leaves in the tables: one that runs, and one that never started. */
  lemma EndKeeps(d: Dispatch, id: string, job: Job)
    requires DispatchInv(d) && id in d.frames && id in d.queue.byId
    requires job.jobId == id && job.jobKey == d.queue.byId[id].job.jobKey
    requires !job.status.JobRunning? && AttemptsFit(job)
    ensures DispatchInv(AfterEnd(d, id, job))
  {
    StoreKeepsKnown(d, id, job);
    EndedJobFits(d, id, job);
    ConcurrencyKeysTellKinds();
    KeyReleased(d.frames, d.inFlight, ConcurrencyKey, id);
  }

  lemma RefusedKeeps(d: Dispatch, id: string, job: Job)
    requires DispatchInv(d) && id !in d.frames && id in d.queue.byId
    requires job.jobId == id && job.jobKey == d.queue.byId[id].job.jobKey
    requires !job.status.JobRunning? && AttemptsFit(job)
    ensures DispatchInv(Store(d, id, job))
  {
    StoreKeepsKnown(d, id, job);
    StoreKeepsRest(d.queue.byId, id, d.queue.byId[id].(job := job));
    UnstartedFrames(d.frames, d.queue.byId, id, d.queue.byId[id].(job := job));
  }

  lemma UnstartedFrames(frames: map<string, Job>, byId: map<string, StoredJob>, id: string, stored: StoredJob)
    requires FramesAgree(frames, byId) && id !in frames && !stored.job.status.JobRunning?
    ensures FramesAgree(frames, byId[id := stored])
  {
  }

  lemma EndedJobFits(d: Dispatch, id: string, job: Job)
    requires AllFit(d.queue.byId) && FramesAgree(d.frames, d.queue.byId) && id in d.queue.byId
    requires !job.status.JobRunning? && AttemptsFit(job)
    ensures var byId := d.queue.byId[id := d.queue.byId[id].(job := job)];
            AllFit(byId) && FramesAgree(d.frames - {id}, byId)
  {
    var stored := d.queue.byId[id].(job := job);
    StoreKeepsRest(d.queue.byId, id, stored);
    EndFrames(d.frames, d.queue.byId, id, stored);
  }

  lemma ConcurrencyKeysTellKinds()
    ensures KeysTellKinds(ConcurrencyKey)
  {
    forall a, b | ConcurrencyKey(a) == ConcurrencyKey(b)
      ensures a.kind == b.kind || (!Exclusive(a.kind) && !Exclusive(b.kind))
    {
      SameKeySameKind(a, b);
    }
  }

  lemma BeginKeeps(d: Dispatch, nowMs: int)
    requires DispatchInv(d)
    ensures DispatchInv(Begin(d, nowMs).0)
  {
    var next := SelectNextRunnable(d);
    SelectionExactly(d);
    if Begin(d, nowMs).1.Started? {
      BeginRunsFreeKey(d, nowMs);
      StartKeeps(d, next.value, nowMs);
    } else if next.Some? {
      RefusedKeeps(d, next.value.jobId, MarkedFailed(next.value, NoWorker(next.value.kind), nowMs));
    }
  }

  lemma FinishKeeps(d: Dispatch, id: string, result: WorkerResult, nowMs: int)
    requires DispatchInv(d) && id in d.frames
    ensures id in d.queue.byId && DispatchInv(Finish(d, id, result, nowMs))
  {
    AfterWorkFits(d.queue.byId[id].job, result, nowMs);
    EndKeeps(d, id, AfterWork(d.queue.byId[id].job, result, nowMs));
  }

  lemma AfterWorkFits(job: Job, result: WorkerResult, nowMs: int)
    requires job.status.JobRunning? && AttemptsFit(job)
    ensures var done := AfterWork(job, result, nowMs);
            done.jobId == job.jobId && done.jobKey == job.jobKey && !done.status.JobRunning? && AttemptsFit(done)
  {
  }

  // ── runs ──────────────────────────────────────────────────────────

  datatype Op =
    | OpRegister(kind: JobKind)
    | OpSubmit(spec: JobSpec, jobId: string, nowMs: int)
    | OpBegin(nowMs: int)
    | OpFinish(id: string, result: WorkerResult, nowMs: int)

  /** Random job ids are fresh, and only a suspended call can resume. */
  ghost predicate OpEnabled(d: Dispatch, op: Op) {
    match op
    case OpSubmit(spec, jobId, t) => jobId !in d.queue.byId
    case OpFinish(id, result, t) => id in d.frames && id in d.queue.byId
    case OpBegin(t) => QueueInv(d.queue)
    case OpRegister(kind) => true
  }

  ghost function ApplyOp(d: Dispatch, op: Op): Dispatch
    requires OpEnabled(d, op)
  {
    match op
    case OpRegister(kind) => d.(workers := d.workers + {kind})
    case OpSubmit(spec, jobId, t) => Submit(d, spec, jobId, t).0
    case OpBegin(t) => Begin(d, t).0
    case OpFinish(id, result, t) => Finish(d, id, result, t)
  }

  const NewDispatcher := Dispatch(EmptyQueue, map[], {}, {}, map[])

  /** Calls start, suspend and resume in any order. */
  ghost predicate IsOpRun(states: seq<Dispatch>, ops: seq<Op>) {
    && |states| == |ops| + 1
    && states[0] == NewDispatcher
    && forall n :: 0 <= n < |ops| ==> OpEnabled(states[n], ops[n]) && states[n + 1] == ApplyOp(states[n], ops[n])
  }

  lemma {:induction false} OpRunKeeps(states: seq<Dispatch>, ops: seq<Op>, n: nat)
    requires IsOpRun(states, ops) && n < |states|
    ensures DispatchInv(states[n])
  {
    if n > 0 {
      OpRunKeeps(states, ops, n - 1);
      var d := states[n - 1];
      match ops[n - 1]
      case OpRegister(kind) =>
      case OpSubmit(spec, jobId, t) => SubmitKeeps(d, spec, jobId, t);
      case OpBegin(t) => BeginKeeps(d, t);
      case OpFinish(id, result, t) => FinishKeeps(d, id, result, t);
    }
  }

  /** The states that some run reaches. */
  ghost predicate Reachable(d: Dispatch) {
    exists states: seq<Dispatch>, ops: seq<Op> :: IsOpRun(states, ops) && states[|ops|] == d
  }

  lemma ReachableKeeps(d: Dispatch)
    requires Reachable(d)
    ensures DispatchInv(d)
  {
    var states: seq<Dispatch>, ops: seq<Op> :| IsOpRun(states, ops) && states[|ops|] == d;
    OpRunKeeps(states, ops, |ops|);
  }

  lemma ReachableNext(d: Dispatch, op: Op)
    requires Reachable(d) && OpEnabled(d, op)
    ensures Reachable(ApplyOp(d, op))
  {
    var states: seq<Dispatch>, ops: seq<Op> :| IsOpRun(states, ops) && states[|ops|] == d;
    var states', ops' := states + [ApplyOp(d, op)], ops + [op];
    assert IsOpRun(states', ops') && states'[|ops'|] == ApplyOp(d, op);
  }

  lemma NewIsReachable()
    ensures Reachable(NewDispatcher)
  {
    assert IsOpRun([NewDispatcher], []) && [NewDispatcher][0] == NewDispatcher;
  }

  ghost function RunningWith(byId: map<string, StoredJob>, keyOf: Job -> string, key: string): set<string> {
    set id | id in byId && byId[id].job.status.JobRunning? && Exclusive(byId[id].job.kind) && keyOf(byId[id].job) == key
  }

  ghost predicate KeyFieldsDecide(keyOf: Job -> string) {
    forall a, b :: SameKeyFields(a, b) ==> keyOf(a) == keyOf(b)
  }

  lemma OneRunningPerKey(frames: map<string, Job>, inFlight: set<string>, keyOf: Job -> string, byId: map<string, StoredJob>, job: Job)
    requires FramesAgree(frames, byId) && KeysHeld(frames, inFlight, keyOf)
    requires KeysTellKinds(keyOf) && KeyFieldsDecide(keyOf) && Exclusive(job.kind)
    ensures |RunningWith(byId, keyOf, keyOf(job))| <= 1
    ensures keyOf(job) in inFlight <==> RunningWith(byId, keyOf, keyOf(job)) != {}
  {
    var key := keyOf(job);
    var running := RunningWith(byId, keyOf, key);
    forall a | a in running ensures a in frames && Exclusive(frames[a].kind) && keyOf(frames[a]) == key {
      assert SameKeyFields(frames[a], byId[a].job);
    }
    if a :| a in running {
      assert forall b :: b in running ==> b == a;
      assert running == {a};
    }
    if key in inFlight {
      var id :| id in frames && keyOf(frames[id]) == key;
      assert SameKeyFields(frames[id], byId[id].job);
      assert id in running;
    }
  }

  /** Whatever the interleaving of submissions, starts and completions: for a key of an exclusive kind at most
      one job runs, and the key is in flight exactly while one does. */
  lemma MutualExclusion(states: seq<Dispatch>, ops: seq<Op>, n: nat, job: Job)
    requires IsOpRun(states, ops) && n < |states| && Exclusive(job.kind)
    ensures |RunningWith(states[n].queue.byId, ConcurrencyKey, ConcurrencyKey(job))| <= 1
    ensures ConcurrencyKey(job) in states[n].inFlight
            <==> RunningWith(states[n].queue.byId, ConcurrencyKey, ConcurrencyKey(job)) != {}
  {
    OpRunKeeps(states, ops, n);
    ConcurrencyKeysTellKinds();
    ConcurrencyKeyFieldsDecide();
    var d := states[n];
    OneRunningPerKey(d.frames, d.inFlight, ConcurrencyKey, d.queue.byId, job);
  }

  lemma ConcurrencyKeyFieldsDecide()
    ensures KeyFieldsDecide(ConcurrencyKey)
  {
  }

  /** Attempts over runs: a pending job always has one left, a running job has not gone over. */
  lemma AttemptsStayWithinBudget(states: seq<Dispatch>, ops: seq<Op>, n: nat, id: string)
    requires IsOpRun(states, ops) && n < |states| && id in states[n].queue.byId
    ensures AttemptsFit(states[n].queue.byId[id].job)
  {
    OpRunKeeps(states, ops, n);
  }

  // ── draining ──────────────────────────────────────────────────────

  function AttemptsLeft(job: Job): nat {
    if job.status.JobPending? && job.attempts < job.maxAttempts then job.maxAttempts - job.attempts else 0
  }

  function Left(byId: map<string, StoredJob>): map<string, nat> {
    map id | id in byId :: AttemptsLeft(byId[id].job)
  }

  /** The attempts that pending jobs have left, added up. */
  ghost function Measure(q: QueueState): nat {
    Sum(Left(q.byId))
  }

  lemma StoringMoves(q: QueueState, id: string, stored: StoredJob)
    requires id in q.byId
    ensures Sum(Left(q.byId[id := stored])) + AttemptsLeft(q.byId[id].job) == Measure(q) + AttemptsLeft(stored.job)
  {
    assert Left(q.byId[id := stored]) == Left(q.byId)[id := AttemptsLeft(stored.job)];
    SumUpdate(Left(q.byId), id, AttemptsLeft(stored.job));
  }

  /** One tick of the scheduler: processNext from start to end, with nothing in between. */
  ghost function ProcessNext(d: Dispatch, result: WorkerResult, nowMs: int): (r: (Dispatch, bool))
    requires DispatchInv(d)
    ensures DispatchInv(r.0)
  {
    BeginKeeps(d, nowMs);
    var (d', reply) := Begin(d, nowMs);
    match reply
    case NothingToRun => (d', false)
    case FailedNoWorker(job) => (d', true)
    case Started(running) =>
      assert running.jobId in d'.frames;
      FinishKeeps(d', running.jobId, result, nowMs);
      (Finish(d', running.jobId, result, nowMs), true)
  }

  lemma BeginMeasure(d: Dispatch, nowMs: int)
    requires DispatchInv(d)
    ensures !Begin(d, nowMs).1.NothingToRun? ==> Measure(Begin(d, nowMs).0.queue) < Measure(d.queue)
    ensures Begin(d, nowMs).1.Started? ==>
              var next := SelectNextRunnable(d).value;
              && next.jobId in d.queue.byId
              && Measure(Begin(d, nowMs).0.queue) + (next.maxAttempts - next.attempts) == Measure(d.queue)
  {
    SelectionExactly(d);
    var next := SelectNextRunnable(d);
    if next.Some? {
      var id := next.value.jobId;
      var job := if next.value.kind !in d.workers then MarkedFailed(next.value, NoWorker(next.value.kind), nowMs)
                 else MarkedRunning(next.value, nowMs);
      StoringMoves(d.queue, id, d.queue.byId[id].(job := job));
    }
  }

  lemma FinishMeasure(d: Dispatch, id: string, result: WorkerResult, nowMs: int)
    requires id in d.frames && id in d.queue.byId && d.queue.byId[id].job.status.JobRunning?
    requires AttemptsFit(d.queue.byId[id].job)
    ensures var job := d.queue.byId[id].job;
            Measure(Finish(d, id, result, nowMs).queue) <= Measure(d.queue) + (job.maxAttempts - job.attempts)
  {
    var done := AfterWork(d.queue.byId[id].job, result, nowMs);
    StoringMoves(d.queue, id, d.queue.byId[id].(job := done));
  }

  lemma StartedMeasure(d: Dispatch, result: WorkerResult, nowMs: int)
    requires DispatchInv(d) && Begin(d, nowMs).1.Started?
    ensures Measure(ProcessNext(d, result, nowMs).0.queue) < Measure(d.queue)
  {
    BeginMeasure(d, nowMs);
    StartedJob(d, nowMs);
    var (d1, reply) := Begin(d, nowMs);
    FinishMeasure(d1, reply.running.jobId, result, nowMs);
  }

  lemma NothingLeftSuspended(d: Dispatch, result: WorkerResult, nowMs: int)
    requires DispatchInv(d) && d.frames == map[] && Begin(d, nowMs).1.Started?
    ensures ProcessNext(d, result, nowMs).0.frames == map[]
  {
    StartedJob(d, nowMs);
    var id := Begin(d, nowMs).1.running.jobId;
    var frames := Begin(d, nowMs).0.frames;
    assert ProcessNext(d, result, nowMs).0.frames == frames - {id};
    OneLess(d.frames, id, SelectNextRunnable(d).value);
  }

  lemma OneLess(frames: map<string, Job>, id: string, job: Job)
    requires frames == map[]
    ensures frames[id := job] - {id} == map[]
  {
  }

  lemma StartedJob(d: Dispatch, nowMs: int)
    requires DispatchInv(d) && Begin(d, nowMs).1.Started?
    ensures var (d1, reply) := Begin(d, nowMs);
            var next := SelectNextRunnable(d).value;
            && reply.running == MarkedRunning(next, nowMs) && next.jobId in d1.queue.byId
            && d1.queue.byId[next.jobId].job == reply.running
            && d1.frames == d.frames[next.jobId := next]
  {
    SelectionExactly(d);
    var next := SelectNextRunnable(d).value;
    StoreKeepsKnown(d, next.jobId, MarkedRunning(next, nowMs));
  }

  lemma IdleMeansDrained(d: Dispatch, nowMs: int)
    requires DispatchInv(d) && d.frames == map[] && Begin(d, nowMs).1.NothingToRun?
    ensures forall id :: id in d.queue.byId ==> !d.queue.byId[id].job.status.JobPending?
  {
    SelectionExactly(d);
    assert d.inFlight == {};
    forall id | id in d.queue.byId ensures !d.queue.byId[id].job.status.JobPending? {
      var job := d.queue.byId[id].job;
      NothingInFlight(d.inFlight, job);
      assert PendingJob(d.queue, job) <==> job.status.JobPending?;
    }
  }

  /** A tick that did something strictly lowers the measure; a tick that did nothing found no pending job at
      all and changed nothing. */
  lemma TickDecreases(d: Dispatch, result: WorkerResult, nowMs: int)
    requires DispatchInv(d) && d.frames == map[]
    ensures var (d', more) := ProcessNext(d, result, nowMs);
            && DispatchInv(d') && d'.frames == map[]
            && (more ==> Measure(d'.queue) < Measure(d.queue))
            && (!more ==> d' == d && forall id :: id in d.queue.byId ==> !d.queue.byId[id].job.status.JobPending?)
  {
    match Begin(d, nowMs).1
    case Started(_) =>
      StartedMeasure(d, result, nowMs);
      NothingLeftSuspended(d, result, nowMs);
    case FailedNoWorker(_) => BeginMeasure(d, nowMs);
    case NothingToRun => IdleMeansDrained(d, nowMs);
  }

  lemma NothingInFlight(inFlight: set<string>, job: Job)
    requires inFlight == {}
    ensures CanRun(inFlight, job)
  {
    CountNothing(inFlight, ORGANIZE_GLOBAL);
    CountNothing(inFlight, SEARCH_REBUILD_GLOBAL);
    CountNothing(inFlight, REPLAY_GLOBAL);
    CountNothing(inFlight, DERIVED_GLOBAL);
    CountNothing(inFlight, FULL_GLOBAL);
  }

  lemma CountNothing(inFlight: set<string>, prefix: string)
    requires inFlight == {}
    ensures CountPrefix(inFlight, prefix) == 0
  {
    assert (set key | key in inFlight && prefix <= key) == {};
  }
}
