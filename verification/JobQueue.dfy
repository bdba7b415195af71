/** The in-memory job queue: jobs by id and by key, and the ids waiting to be dequeued. */
module JobQueues {
  import opened JobTypes
  import opened Sorting

  datatype JobStatus = JobPending | JobRunning | JobCompleted | JobFailed | JobCancelled

  /** `parentRunId` and `parentJobId` are what the dispatcher reads from the payload. */
  datatype Job = Job(
    jobId: string,
    jobKey: string,
    kind: JobKind,
    executionClass: ExecutionClass,
    sessionId: Option<string>,
    agentId: Option<string>,
    idempotencyKey: Option<string>,
    parentRunId: Option<string>,
    parentJobId: Option<string>,
    status: JobStatus,
    attempts: nat,
    maxAttempts: int,
    retriable: bool,
    createdAt: int,
    startedAt: Option<int>,
    completedAt: Option<int>,
    error: Option<string>,
    ownershipAccepted: bool)

  datatype StoredJob = StoredJob(job: Job, enqueueSeq: nat)

  /** The fields of the queue; `order` is the insertion order of the map by id. */
  datatype QueueState = QueueState(
    byId: map<string, StoredJob>, order: seq<string>, idByKey: map<string, string>,
    pendingIds: set<string>, counter: nat)

  /** Every stored job is found under its own id and, keys being unique, under its own key; the waiting ids
      are those of pending jobs. */
  ghost predicate QueueInv(q: QueueState) {
    && NoDuplicates(q.order)
    && (forall id :: id in q.order <==> id in q.byId)
    && (forall id :: id in q.byId ==>
          && q.byId[id].job.jobId == id
          && q.byId[id].job.jobKey in q.idByKey && q.idByKey[q.byId[id].job.jobKey] == id
          && q.byId[id].enqueueSeq < q.counter)
    && (forall k :: k in q.idByKey ==> q.idByKey[k] in q.byId && q.byId[q.idByKey[k]].job.jobKey == k)
    && (forall id, id' :: id in q.byId && id' in q.byId && id != id' ==> q.byId[id].enqueueSeq != q.byId[id'].enqueueSeq)
    && (forall id :: id in q.pendingIds ==> id in q.byId && q.byId[id].job.status.JobPending?)
  }

  const EmptyQueue := QueueState(map[], [], map[], {}, 0)

  function Enqueued(q: QueueState, job: Job): QueueState {
    QueueState(
      q.byId[job.jobId := StoredJob(job, q.counter)],
      if job.jobId in q.byId then q.order else q.order + [job.jobId],
      q.idByKey[job.jobKey := job.jobId],
      if job.status.JobPending? then q.pendingIds + {job.jobId} else q.pendingIds,
      q.counter + 1)
  }

  function Updated(q: QueueState, id: string, job: Job): QueueState
    requires id in q.byId
  {
    q.(byId := q.byId[id := q.byId[id].(job := job)],
       idByKey := q.idByKey[job.jobKey := job.jobId],
       pendingIds := if job.status.JobPending? then q.pendingIds + {job.jobId}
                     else if q.byId[id].job.status.JobPending? then q.pendingIds - {job.jobId} else q.pendingIds)
  }

  function ByKey(q: QueueState, jobKey: string): Option<Job> {
    if jobKey in q.idByKey && q.idByKey[jobKey] in q.byId then Some(q.byId[q.idByKey[jobKey]].job) else None
  }

  lemma EnqueuedKeeps(q: QueueState, job: Job)
    requires QueueInv(q) && job.jobId !in q.byId && job.jobKey !in q.idByKey
    ensures QueueInv(Enqueued(q, job))
  {
    AppendFresh(q.order, job.jobId);
  }

  lemma AppendFresh(order: seq<string>, id: string)
    requires NoDuplicates(order) && id !in order
    ensures NoDuplicates(order + [id])
    ensures forall other :: other in order + [id] <==> other in order || other == id
  {
  }

  lemma UpdatedKeeps(q: QueueState, id: string, job: Job)
    requires QueueInv(q) && id in q.byId && job.jobId == id && job.jobKey == q.byId[id].job.jobKey
    ensures QueueInv(Updated(q, id, job))
  {
  }

  // ── dequeue order ─────────────────────────────────────────────────

  function ClassPriority(c: ExecutionClass): nat {
    match c
    case InteractiveUserTurn => 1
    case InteractiveDelegatedTask => 2
    case BackgroundMemoryMigrate => 3
    case BackgroundMemoryOrganize => 4
    case BackgroundSearchRebuild => 4
    case BackgroundMaintenanceReplay => 4
    case BackgroundMaintenanceRebuildDerived => 4
    case BackgroundMaintenanceFull => 5
    case BackgroundAutonomy => 5
    case BackgroundCognitionThinker => 3
  }

  predicate DequeuedBefore(a: StoredJob, b: StoredJob) {
    var pa, pb := ClassPriority(a.job.executionClass), ClassPriority(b.job.executionClass);
    || pa < pb
    || (pa == pb && a.job.createdAt < b.job.createdAt)
    || (pa == pb && a.job.createdAt == b.job.createdAt && a.enqueueSeq < b.enqueueSeq)
  }

  /** The waiting job that comes before all other waiting jobs; there is at most one. */
  ghost predicate IsNext(q: QueueState, id: string) {
    && id in q.pendingIds && id in q.byId
    && forall other :: other in q.pendingIds && other != id && other in q.byId ==> DequeuedBefore(q.byId[id], q.byId[other])
  }

  lemma NextIsUnique(q: QueueState, a: string, b: string)
    requires IsNext(q, a) && IsNext(q, b)
    ensures a == b
  {
  }

  class JobQueue {
    var byId: map<string, StoredJob>
    var order: seq<string>
    var idByKey: map<string, string>
    var pendingIds: set<string>
    var enqueueCounter: nat

    ghost function State(): QueueState
      reads this
    {
      QueueState(byId, order, idByKey, pendingIds, enqueueCounter)
    }

    ghost predicate Valid()
      reads this
    {
      QueueInv(State())
    }

    constructor ()
      ensures Valid() && State() == EmptyQueue
    {
      byId, order, idByKey, pendingIds, enqueueCounter := map[], [], map[], {}, 0;
    }

    method Enqueue(job: Job)
      modifies this
      ensures State() == Enqueued(old(State()), job)
      ensures old(Valid()) && job.jobId !in old(byId) && job.jobKey !in old(idByKey) ==> Valid()
    {
      ghost var q := State();
      if job.jobId !in byId {
        order := order + [job.jobId];
      }
      byId := byId[job.jobId := StoredJob(job, enqueueCounter)];
      enqueueCounter := enqueueCounter + 1;
      idByKey := idByKey[job.jobKey := job.jobId];
      if job.status == JobPending {
        pendingIds := pendingIds + {job.jobId};
      }
      if QueueInv(q) && job.jobId !in q.byId && job.jobKey !in q.idByKey { EnqueuedKeeps(q, job); }
    }

    method GetByKey(jobKey: string) returns (job: Option<Job>)
      ensures job == ByKey(State(), jobKey)
    {
      if jobKey in idByKey && idByKey[jobKey] in byId {
        return Some(byId[idByKey[jobKey]].job);
      }
      return None;
    }

    method SyncPendingState(previous: JobStatus, next: JobStatus, id: string)
      modifies this`pendingIds
      ensures pendingIds == if next.JobPending? then old(pendingIds) + {id}
                            else if previous.JobPending? then old(pendingIds) - {id} else old(pendingIds)
    {
      if previous != JobPending && next == JobPending {
        pendingIds := pendingIds + {id};
        return;
      }
      if previous == JobPending && next != JobPending {
        pendingIds := pendingIds - {id};
        return;
      }
      if next == JobPending {
        pendingIds := pendingIds + {id};
      }
    }

    /** `updates` is what the spread of the partial record does to the stored job. Any update is stored; one that
        leaves id and key alone keeps the queue consistent. */
    method UpdateJob(id: string, updates: Job -> Job)
      modifies this
      ensures old(Valid()) && (id in old(byId) ==>
                updates(old(byId)[id].job).jobId == id && updates(old(byId)[id].job).jobKey == old(byId)[id].job.jobKey)
              ==> Valid()
      ensures State() == if id in old(byId) then Updated(old(State()), id, updates(old(byId)[id].job)) else old(State())
    {
      if id !in byId {
        return;
      }
      ghost var q := State();
      var existing := byId[id];
      var merged := updates(existing.job);
      byId := byId[id := existing.(job := merged)];
      idByKey := idByKey[merged.jobKey := merged.jobId];
      SyncPendingState(existing.job.status, merged.status, merged.jobId);
      assert State() == Updated(q, id, merged);
      if QueueInv(q) && merged.jobId == id && merged.jobKey == existing.job.jobKey { UpdatedKeeps(q, id, merged); }
    }

    /** The scan keeps a best candidate; whatever order it visits the ids in, it finds the first one. */
    method SelectNextPending() returns (best: Option<string>)
      requires Valid()
      ensures best.None? <==> pendingIds == {}
      ensures best.Some? ==> IsNext(State(), best.value)
    {
      var rest := pendingIds;
      best := None;
      while rest != {}
        invariant rest <= pendingIds
        invariant best.None? ==> rest == pendingIds
        invariant best.Some? ==>
                    && best.value in pendingIds - rest
                    && forall other :: other in pendingIds - rest && other != best.value
                         ==> DequeuedBefore(byId[best.value], byId[other])
      {
        var id :| id in rest;
        rest := rest - {id};
        if best.None? {
          best := Some(id);
        } else {
          var candidate, current := byId[id], byId[best.value];
          var candidatePriority := ClassPriority(candidate.job.executionClass);
          var bestPriority := ClassPriority(current.job.executionClass);
          if candidatePriority < bestPriority {
            best := Some(id);
          } else if candidatePriority == bestPriority {
            if candidate.job.createdAt < current.job.createdAt {
              best := Some(id);
            } else if candidate.job.createdAt == current.job.createdAt && candidate.enqueueSeq < current.enqueueSeq {
              best := Some(id);
            }
          }
        }
      }
    }

    /** Takes the first waiting job off the waiting list and leaves every other part of the queue alone. */
    method Dequeue() returns (job: Option<Job>)
      requires Valid()
      modifies this`pendingIds
      ensures Valid()
      ensures job.None? <==> old(pendingIds) == {}
      ensures job.Some? ==>
                && IsNext(old(State()), job.value.jobId)
                && job.value == byId[job.value.jobId].job
                && pendingIds == old(pendingIds) - {job.value.jobId}
      ensures job.None? ==> pendingIds == old(pendingIds)
    {
      var next := SelectNextPending();
      if next.None? {
        return None;
      }
      pendingIds := pendingIds - {next.value};
      return Some(byId[next.value].job);
    }
  }

  /** Taking the first job each time empties the list in order: whatever is taken later comes later. */
  lemma DequeueOrder(q: QueueState, first: string, second: string)
    requires QueueInv(q) && IsNext(q, first) && IsNext(q.(pendingIds := q.pendingIds - {first}), second)
    ensures DequeuedBefore(q.byId[first], q.byId[second]) && !DequeuedBefore(q.byId[second], q.byId[first])
  {
  }
}
