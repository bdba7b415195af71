/** Values stored in the two tables of the durable job store, and the inputs and
    replies of its transactions. Nullable columns are `Option`s. */
module JobTypes {

  datatype Option<+T> = None | Some(value: T)

  datatype JobKind =
    | MemoryMigrate
    | MemoryOrganize
    | TaskRun
    | SearchRebuild
    | MaintenanceReplayProjection
    | MaintenanceRebuildDerived
    | MaintenanceFull
    | CognitionThinker

  function KindName(kind: JobKind): string {
    match kind
    case MemoryMigrate => "memory.migrate"
    case MemoryOrganize => "memory.organize"
    case TaskRun => "task.run"
    case SearchRebuild => "search.rebuild"
    case MaintenanceReplayProjection => "maintenance.replay_projection"
    case MaintenanceRebuildDerived => "maintenance.rebuild_derived"
    case MaintenanceFull => "maintenance.full"
    case CognitionThinker => "cognition.thinker"
  }

  datatype ExecutionClass =
    | InteractiveUserTurn
    | InteractiveDelegatedTask
    | BackgroundMemoryMigrate
    | BackgroundMemoryOrganize
    | BackgroundSearchRebuild
    | BackgroundMaintenanceReplay
    | BackgroundMaintenanceRebuildDerived
    | BackgroundMaintenanceFull
    | BackgroundAutonomy
    | BackgroundCognitionThinker

  datatype Status = Pending | Running | Succeeded | FailedTerminal | Cancelled {
    predicate Active() { Pending? || Running? }
    predicate Terminal() { !Active() }
  }

  datatype Outcome =
    | InProgress
    | DoneSucceeded
    | RetryScheduled
    | DoneFailed
    | DoneCancelled
    | LeaseLost

  /** Only the fields of a search.rebuild payload that the store reads are kept apart. */
  datatype Payload =
    | SearchPayload(triggerSource: string, triggerReason: string, requestedAt: Option<int>, body: string)
    | OtherPayload(body: string)

  /** The normalized value of `family_state_json`; the JSON object `{}` is `EmptyFamilyState`. */
  datatype FamilyState = FamilyState(
    rerunRequested: bool,
    coalescedRequestCount: nat,
    latestRequestedAt: Option<int>,
    sourceCounts: map<string, nat>,
    reasonCounts: map<string, nat>)

  const EmptyFamilyState := FamilyState(false, 0, None, map[], map[])

  /** A row of `jobs_current`. */
  datatype Row = Row(
    jobKey: string,
    jobType: JobKind,
    familyKey: Option<string>,
    executionClass: ExecutionClass,
    concurrencyKey: string,
    status: Status,
    payloadVersion: nat,
    payload: Payload,
    family: FamilyState,
    claimVersion: nat,
    claimedBy: Option<string>,
    claimedAt: Option<int>,
    leaseExpiresAt: Option<int>,
    lastHeartbeatAt: Option<int>,
    attemptCount: nat,
    maxAttempts: int,
    nextAttemptAt: int,
    lastErrorCode: Option<string>,
    lastErrorMessage: Option<string>,
    lastErrorAt: Option<int>,
    createdAt: int,
    updatedAt: int,
    terminalAt: Option<int>)

  /** The unique index of `job_attempts`. */
  datatype AttemptId = AttemptId(key: string, version: nat)

  /** A row of `job_attempts`. */
  datatype Attempt = Attempt(
    jobKey: string,
    jobType: JobKind,
    familyKey: Option<string>,
    executionClass: ExecutionClass,
    concurrencyKey: string,
    claimVersion: nat,
    attemptNo: nat,
    workerId: string,
    outcome: Outcome,
    payloadVersion: nat,
    payloadSnapshot: Payload,
    familySnapshot: FamilyState,
    startedAt: int,
    lastHeartbeatAt: Option<int>,
    leaseExpiresAt: int,
    finishedAt: Option<int>,
    errorCode: Option<string>,
    errorMessage: Option<string>,
    backoffUntil: Option<int>)

  datatype Db = Db(jobs: map<string, Row>, attempts: map<AttemptId, Attempt>)

  datatype EnqueueInput = EnqueueInput(
    jobKey: string,
    jobType: JobKind,
    familyKey: Option<string>,
    executionClass: ExecutionClass,
    concurrencyKey: string,
    payloadVersion: nat,
    payload: Payload,
    maxAttempts: int,
    nowMs: int,
    nextAttemptAt: Option<int>)
  {
    /** What the TypeScript input type demands of callers. */
    predicate WellTyped() { jobType.SearchRebuild? ==> payload.SearchPayload? }
  }

  datatype ClaimInput = ClaimInput(workerId: string, nowMs: int, leaseDurationMs: int)

  datatype FailInput = FailInput(
    nowMs: int, errorCode: Option<string>, errorMessage: string, retryDelayMs: Option<int>)

  /** A `Raised` reply is an error thrown inside a transaction, which is then rolled back. */
  datatype EnqueueReply =
    | Created(jobKey: string)
    | Duplicate(status: Status, claimVersion: nat)
    | Coalesced(into: string)
    | EnqueueRaised

  datatype FenceMiss = NotFound | StaleClaim | NotRunning

  datatype ClaimReply = Claimed(job: Row) | NoneReady | ClaimRaised

  datatype HeartbeatReply = Renewed(leaseExpiresAt: int) | HeartbeatMissed(miss: FenceMiss)

  datatype CompleteReply = Completed(terminalAt: int) | CompleteMissed(miss: FenceMiss) | CompleteRaised

  datatype FailReply = WillRetry(nextAttemptAt: int) | FailedForGood(terminalAt: int) | FailMissed(miss: FenceMiss)

  datatype CancelReply = CancelDone(terminalAt: int) | CancelMissed(miss: FenceMiss)
}
