/** The dispatcher object over its queue, cut where a worker is awaited, and the scheduler that drives it. */
module JobDispatchers {
  import opened JobTypes
  import opened Sorting
  import opened JobQueues
  import opened Dispatchers
  import opened DispatcherTheorems

  lemma SubmitReaches(d: Dispatch, spec: JobSpec, jobId: string, nowMs: int)
    requires Reachable(d) && jobId !in d.queue.byId
    ensures Reachable(Submit(d, spec, jobId, nowMs).0)
    ensures Submit(d, spec, jobId, nowMs).1.Some? <==> spec.jobKey !in d.known
    ensures Submit(d, spec, jobId, nowMs).1.None? ==> Submit(d, spec, jobId, nowMs).0 == d
  {
    ReachableKeeps(d);
    ReachableNext(d, OpSubmit(spec, jobId, nowMs));
    SubmitKeeps(d, spec, jobId, nowMs);
  }

  class JobDispatcher {
    const queue: JobQueue
    var workers: set<JobKind>
    var jobsByKey: map<string, Job>
    var inFlightByKey: set<string>
    /** The calls of ProcessNext that wait for their worker. */
    ghost var suspended: map<string, Job>

    ghost function State(): Dispatch
      reads this, queue
    {
      Dispatch(queue.State(), jobsByKey, inFlightByKey, workers, suspended)
    }

    /** The object is in a state that some run of its operations reaches. */
    ghost predicate Valid()
      reads this, queue
    {
      Reachable(State())
    }

    constructor (queue: JobQueue)
      requires queue.State() == EmptyQueue
      ensures this.queue == queue && State() == NewDispatcher && Valid()
    {
      this.queue := queue;
      workers, jobsByKey, inFlightByKey, suspended := {}, map[], {}, map[];
      NewIsReachable();
    }

    method RegisterWorker(kind: JobKind)
      requires Valid()
      modifies this`workers
      ensures Valid() && State() == old(State()).(workers := old(workers) + {kind})
    {
      ReachableNext(State(), OpRegister(kind));
      workers := workers + {kind};
    }

    method RememberJob(jobKey: string)
      modifies this`jobsByKey
      ensures jobsByKey == Remember(old(jobsByKey), queue.State(), jobKey)
    {
      var found := queue.GetByKey(jobKey);
      if found.Some? {
        jobsByKey := jobsByKey[found.value.jobKey := found.value];
      }
    }

    /** The queue's job changes, and the dispatcher remembers it as it now is. */
    method UpdateAndRemember(job: Job, updates: Job -> Job)
      requires queue.Valid() && Stored(job)
      requires updates(queue.byId[job.jobId].job).jobId == job.jobId && updates(queue.byId[job.jobId].job).jobKey == job.jobKey
      modifies this`jobsByKey, queue
      ensures old(job.jobId in queue.byId)
      ensures State() == Store(old(State()), job.jobId, updates(old(queue.byId)[job.jobId].job))
    {
      queue.UpdateJob(job.jobId, updates);
      RememberJob(job.jobKey);
    }

    ghost predicate Stored(job: Job)
      reads queue
    {
      job.jobId in queue.byId && queue.byId[job.jobId].job.jobKey == job.jobKey
    }

    /** Only a job whose key was never seen is accepted; any other call changes nothing. */
    method Submit(spec: JobSpec, jobId: string, nowMs: int) returns (job: Option<Job>)
      requires Valid() && jobId !in queue.byId
      modifies this, queue
      ensures Valid() && (State(), job) == Dispatchers.Submit(old(State()), spec, jobId, nowMs)
      ensures job.Some? <==> spec.jobKey !in old(jobsByKey)
      ensures job.None? ==> State() == old(State())
    {
      SubmitReaches(State(), spec, jobId, nowMs);
      RememberJob(spec.jobKey);
      if CheckDuplicate(jobsByKey, spec.jobKey) != Accept {
        return None;
      }
      var accepted := JobFromSpec(spec, jobId, nowMs);
      queue.Enqueue(accepted);
      jobsByKey := jobsByKey[accepted.jobKey := accepted];
      return Some(accepted);
    }

    method CountInFlight(prefix: string) returns (running: nat)
      ensures running == CountPrefix(inFlightByKey, prefix)
    {
      running := 0;
      var rest := inFlightByKey;
      assert (set key | key in inFlightByKey - rest && prefix <= key) == {};
      while rest != {}
        invariant rest <= inFlightByKey
        invariant running == CountPrefix(inFlightByKey - rest, prefix)
      {
        var key :| key in rest;
        ghost var before := set k | k in inFlightByKey - rest && prefix <= k;
        rest := rest - {key};
        assert (set k | k in inFlightByKey - rest && prefix <= k) == if prefix <= key then before + {key} else before;
        if prefix <= key {
          running := running + 1;
        }
      }
      assert inFlightByKey - rest == inFlightByKey;
    }

    method CanRunNow(job: Job) returns (can: bool)
      ensures can == CanRun(inFlightByKey, job)
    {
      match job.kind {
        case MemoryMigrate => return ConcurrencyKey(job) !in inFlightByKey;
        case TaskRun => return ConcurrencyKey(job) !in inFlightByKey;
        case MemoryOrganize =>
          var running := CountInFlight(ORGANIZE_GLOBAL);
          return running < 2;
        case SearchRebuild =>
          var running := CountInFlight(SEARCH_REBUILD_GLOBAL);
          return running < 1;
        case MaintenanceReplayProjection =>
          var running := CountInFlight(REPLAY_GLOBAL);
          return running < 1;
        case MaintenanceRebuildDerived =>
          var running := CountInFlight(DERIVED_GLOBAL);
          return running < 1;
        case MaintenanceFull =>
          var running := CountInFlight(FULL_GLOBAL);
          return running < 1;
        case CognitionThinker => return true;
      }
    }

    method SelectNextRunnableJob() returns (next: Option<Job>)
      ensures next == SelectNextRunnable(State())
    {
      var pending := StableSort(PendingJobs(QueueState(queue.byId, queue.order, queue.idByKey, queue.pendingIds, queue.enqueueCounter), queue.order), SelectLeq);
      var i := 0;
      while i < |pending|
        invariant 0 <= i <= |pending|
        invariant FirstRunnable(inFlightByKey, pending) == FirstRunnable(inFlightByKey, pending[i..])
      {
        var can := CanRunNow(pending[i]);
        if can {
          return Some(pending[i]);
        }
        i := i + 1;
      }
      return None;
    }

    method StartJob(job: Job, nowMs: int)
      requires queue.Valid() && Stored(job) && queue.byId[job.jobId].job == job
      modifies this, queue
      ensures old(job.jobId in queue.byId) && State() == AfterStart(old(State()), job, nowMs)
    {
      inFlightByKey := inFlightByKey + {ConcurrencyKey(job)};
      UpdateAndRemember(job, (j: Job) => j.(
        ownershipAccepted := true, status := JobRunning, startedAt := Some(nowMs), attempts := job.attempts + 1, error := None));
      suspended := suspended[job.jobId := job];
    }

    /** ProcessNext up to its await. */
    method BeginNext(nowMs: int) returns (reply: BeginReply)
      requires Valid()
      modifies this, queue
      ensures old(queue.Valid())
      ensures Valid() && (State(), reply) == Begin(old(State()), nowMs)
    {
      ReachableKeeps(State());
      ReachableNext(State(), OpBegin(nowMs));
      SelectionExactly(State());
      var next := SelectNextRunnableJob();
      if next.None? {
        return NothingToRun;
      }
      var job := next.value;
      if job.kind !in workers {
        UpdateAndRemember(job, (j: Job) => j.(status := JobFailed, completedAt := Some(nowMs), error := Some(NoWorker(job.kind))));
        return FailedNoWorker(MarkedFailed(job, NoWorker(job.kind), nowMs));
      }
      StartJob(job, nowMs);
      return Started(MarkedRunning(job, nowMs));
    }

    method StoreOutcome(next: Job, result: WorkerResult, nowMs: int)
      requires queue.Valid() && Stored(next)
      modifies this`jobsByKey, queue
      ensures old(next.jobId in queue.byId)
      ensures State() == Store(old(State()), next.jobId, AfterWork(old(queue.byId)[next.jobId].job, result, nowMs))
    {
      match result {
        case WorkerReturned =>
          UpdateAndRemember(next, (j: Job) => j.(status := JobCompleted, completedAt := Some(nowMs)));
        case WorkerThrew(message) =>
          var running := queue.GetByKey(next.jobKey);
          if running.value.retriable && running.value.attempts < running.value.maxAttempts {
            UpdateAndRemember(next, (j: Job) => j.(status := JobPending, error := Some(message)));
          } else {
            UpdateAndRemember(next, (j: Job) => j.(status := JobFailed, completedAt := Some(nowMs), error := Some(message)));
          }
      }
    }

    method EndJob(next: Job, result: WorkerResult, nowMs: int)
      requires queue.Valid() && Stored(next) && next.jobId in suspended && suspended[next.jobId] == next
      modifies this, queue
      ensures old(next.jobId in queue.byId) && State() == Finish(old(State()), next.jobId, result, nowMs)
    {
      StoreOutcome(next, result, nowMs);
      inFlightByKey := inFlightByKey - {ConcurrencyKey(next)};
      suspended := suspended - {next.jobId};
    }

    /** The rest of ProcessNext: the worker of the call that selected `next` has returned or thrown. */
    method FinishNext(next: Job, result: WorkerResult, nowMs: int)
      requires Valid() && next.jobId in suspended && suspended[next.jobId] == next
      modifies this, queue
      ensures old(next.jobId in queue.byId)
      ensures Valid() && State() == Finish(old(State()), next.jobId, result, nowMs)
      ensures suspended == old(suspended) - {next.jobId}
    {
      ReachableKeeps(State());
      ReachableNext(State(), OpFinish(next.jobId, result, nowMs));
      EndJob(next, result, nowMs);
    }
  }

  function WaitingCalls(waiting: Option<Job>): map<string, Job> {
    if waiting.Some? then map[waiting.value.jobId := waiting.value] else map[]
  }

  lemma NoneLeft(calls: map<string, Job>, job: Job)
    requires calls == WaitingCalls(Some(job))
    ensures calls - {job.jobId} == map[]
  {
  }

  /** Ticks that find the previous one still waiting for its worker do nothing. */
  class JobScheduler {
    const dispatcher: JobDispatcher
    var tickInFlight: bool
    /** The call the current tick is waiting for. */
    var waiting: Option<Job>

    /** A call is suspended exactly while a tick is in flight, and it is that tick's. */
    ghost predicate Valid()
      reads this, dispatcher, dispatcher.queue
    {
      && dispatcher.Valid()
      && tickInFlight == waiting.Some?
      && dispatcher.suspended == WaitingCalls(waiting)
    }

    constructor (dispatcher: JobDispatcher)
      requires dispatcher.Valid() && dispatcher.suspended == map[]
      ensures Valid() && this.dispatcher == dispatcher && !tickInFlight
    {
      this.dispatcher := dispatcher;
      tickInFlight, waiting := false, None;
    }

    method Tick(nowMs: int)
      requires Valid()
      modifies this, dispatcher, dispatcher.queue
      ensures Valid() && |dispatcher.suspended| <= 1
      ensures old(tickInFlight) ==> tickInFlight && dispatcher.State() == old(dispatcher.State())
      ensures !old(tickInFlight) ==>
                && old(dispatcher.queue.Valid())
                && var (d, reply) := Begin(old(dispatcher.State()), nowMs);
                dispatcher.State() == d && tickInFlight == reply.Started?
    {
      if tickInFlight {
        return;
      }
      tickInFlight := true;
      ghost var d := dispatcher.State();
      ReachableKeeps(d);
      SelectionExactly(d);
      var next := dispatcher.SelectNextRunnableJob();
      var reply := dispatcher.BeginNext(nowMs);
      if reply.Started? {
        StartedJob(d, nowMs);
        waiting := next;
      } else {
        tickInFlight := false;
      }
    }

    method WorkerSettled(result: WorkerResult, nowMs: int)
      requires Valid() && tickInFlight
      modifies this, dispatcher, dispatcher.queue
      ensures Valid() && !tickInFlight
      ensures var id := old(waiting.value.jobId);
              && id in old(dispatcher.suspended) && id in old(dispatcher.queue.byId)
              && dispatcher.State() == Finish(old(dispatcher.State()), id, result, nowMs)
    {
      dispatcher.FinishNext(waiting.value, result, nowMs);
      NoneLeft(old(dispatcher.suspended), waiting.value);
      tickInFlight, waiting := false, None;
    }
  }
}
