/** The job runner: claim, run the registered worker, then complete or fail on the claimed version. */
module PgJobRunners {
  import opened JobTypes
  import opened StoreSpec
  import opened StoreInvariants
  import opened ClaimScan
  import opened StoreEffects
  import opened PgJobStores

  /** What the worker function did: returned, or threw with a message. */
  datatype WorkResult = Returned | Threw(message: string)

  function NoWorker(kind: JobKind): string {
    "No worker registered for job type: " + KindName(kind)
  }

  function RunnerError(message: string, nowMs: int): FailInput {
    FailInput(nowMs, None, message, None)
  }

  /** The tables after the runner has settled a claimed job. A completion that raises is caught and
      reported as a failure. */
  ghost function Settle(db: Db, job: Row, registered: bool, result: WorkResult, raised: string,
                        nowMs: int, successorKey: string): Db
  {
    if !registered then
      Fail(db, job.jobKey, job.claimVersion, RunnerError(NoWorker(job.jobType), nowMs)).0
    else if result.Threw? then
      Fail(db, job.jobKey, job.claimVersion, RunnerError(result.message, nowMs)).0
    else
      var (db', reply) := Complete(db, job.jobKey, job.claimVersion, nowMs, successorKey);
      if reply.CompleteRaised?
      then Fail(db', job.jobKey, job.claimVersion, RunnerError(raised, nowMs)).0
      else db'
  }

  class PgJobRunner {
    const store: PgJobStore
    const workerId: string
    const leaseDurationMs: int
    var workers: set<JobKind>

    constructor (store: PgJobStore, workerId: string, leaseDurationMs: int)
      ensures this.store == store && this.workerId == workerId && this.leaseDurationMs == leaseDurationMs
      ensures workers == {}
    {
      this.store := store;
      this.workerId := workerId;
      this.leaseDurationMs := leaseDurationMs;
      workers := {};
    }

    method RegisterWorker(kind: JobKind)
      modifies this
      ensures workers == old(workers) + {kind}
    {
      workers := workers + {kind};
    }

    /** processNext up to the point where the worker function is awaited. */
    method Begin(nowMs: int, scan: seq<string>, locked: set<string>, busy: set<string>)
      returns (reply: ClaimReply)
      requires store.Valid() && IsScan(store.jobs, scan)
      modifies store
      ensures store.Valid()
      ensures (store.Tables(), reply)
              == ClaimScan.ClaimNext(old(store.Tables()), store.policy, ClaimInput(workerId, nowMs, leaseDurationMs),
                                     scan, locked, busy)
    {
      reply := store.ClaimNext(ClaimInput(workerId, nowMs, leaseDurationMs), scan, locked, busy);
    }

    /** The rest of processNext, after the worker has finished and others have used the store meanwhile. */
    method Finish(job: Row, result: WorkResult, raised: string, nowMs: int, uuid: string)
      requires store.Valid()
      modifies store
      ensures store.Valid()
      ensures var jobs := old(store.jobs);
              var successorKey := if job.jobKey in jobs && HasFamily(jobs[job.jobKey].familyKey)
                                  then SuccessorKey(jobs[job.jobKey].familyKey.value, uuid) else "";
              store.Tables() == Settle(old(store.Tables()), job, job.jobType in workers, result, raised, nowMs, successorKey)
    {
      if job.jobType !in workers {
        var _ := store.Fail(job.jobKey, job.claimVersion,
                            RunnerError(NoWorker(job.jobType), nowMs));
        return;
      }
      if result.Threw? {
        var _ := store.Fail(job.jobKey, job.claimVersion, RunnerError(result.message, nowMs));
        return;
      }
      var reply := store.Complete(job.jobKey, job.claimVersion, nowMs, uuid);
      if reply.CompleteRaised? {
        var _ := store.Fail(job.jobKey, job.claimVersion, RunnerError(raised, nowMs));
      }
    }
  }

  /** Whatever others did since the claim, settling closes exactly the claimed attempt, and changes nothing once the
      claim is stale. While it is current, a registered worker that returns ends the job as succeeded. A missing worker
      or one that throws puts it back for five seconds later exactly while attempts are left, and ends it as failed
      otherwise; the thrown text, or the name of the kind nobody works on, is kept in row and attempt. */
  lemma SettlingClosesTheClaim(db: Db, job: Row, registered: bool, result: WorkResult, raised: string,
                               nowMs: int, successorKey: string)
    requires StoreInv(db) && FreshKey(db, successorKey)
    requires AttemptId(job.jobKey, job.claimVersion) in db.attempts
    ensures var k, v := job.jobKey, job.claimVersion;
            var db' := Settle(db, job, registered, result, raised, nowMs, successorKey);
            && StoreInv(db')
            && AttemptId(k, v) in db'.attempts && !db'.attempts[AttemptId(k, v)].outcome.InProgress?
            && (forall other :: other in db.attempts && other != AttemptId(k, v)
                  ==> other in db'.attempts && db'.attempts[other] == db.attempts[other])
            && if !RunningAt(db, k, v) then db' == db
               else if registered && result.Returned? then
                 Stands(db', k, v, Succeeded, DoneSucceeded) && db'.jobs[k].terminalAt == Some(nowMs)
               else
                 && (if db.jobs[k].attemptCount < db.jobs[k].maxAttempts
                     then Stands(db', k, v, Pending, RetryScheduled) && db'.jobs[k].nextAttemptAt == nowMs + 5_000
                     else Stands(db', k, v, FailedTerminal, DoneFailed) && db'.jobs[k].terminalAt == Some(nowMs))
                 && var text := if registered then result.message else NoWorker(job.jobType);
                 db'.jobs[k].lastErrorMessage == db'.attempts[AttemptId(k, v)].errorMessage == Some(text)
  {
    var k, v := job.jobKey, job.claimVersion;
    assert KeyInv(db, k);
    RunningAttempt(db, k, v);
    if !RunningAt(db, k, v) {
      MissChangesNothing(db, k, v, nowMs);
    } else if registered && result.Returned? {
      CompleteKeeps(db, k, v, nowMs, successorKey);
      SettlementsEndExactly(db, k, v, nowMs, successorKey);
    } else {
      var e := RunnerError(if registered then result.message else NoWorker(job.jobType), nowMs);
      FailKeeps(db, k, v, e);
      FailEndsExactly(db, k, v, e);
      FailedJobIsReadyExactly(db, k, v, e, nowMs + 5_000);
    }
  }

  /** The name of each kind, as it stands in stored jobs, messages and worker registrations. */
  lemma KindNamesExactly(kind: JobKind)
    ensures KindName(kind) == "memory.migrate" <==> kind == MemoryMigrate
    ensures KindName(kind) == "memory.organize" <==> kind == MemoryOrganize
    ensures KindName(kind) == "task.run" <==> kind == TaskRun
    ensures KindName(kind) == "search.rebuild" <==> kind == SearchRebuild
    ensures KindName(kind) == "maintenance.replay_projection" <==> kind == MaintenanceReplayProjection
    ensures KindName(kind) == "maintenance.rebuild_derived" <==> kind == MaintenanceRebuildDerived
    ensures KindName(kind) == "maintenance.full" <==> kind == MaintenanceFull
    ensures KindName(kind) == "cognition.thinker" <==> kind == CognitionThinker
  {
    DistinctNames();
  }

  /** The names differ in length, or else in these characters. */
  lemma DistinctNames()
    ensures |"memory.migrate"| == |"search.rebuild"| == 14 && "memory.migrate"[0] != "search.rebuild"[0]
    ensures |"memory.organize"| == 15 && |"task.run"| == 8 && |"maintenance.replay_projection"| == 29
    ensures |"maintenance.rebuild_derived"| == 27 && |"maintenance.full"| == 16 && |"cognition.thinker"| == 17
  {
  }
}
