/** Each transaction of the durable job store as one step on the two tables. */
module StoreSpec {
  import opened JobTypes
  import opened MapSums

  // ── family state ──────────────────────────────────────────────────

  /** JavaScript truthiness of an optional family key. */
  predicate HasFamily(familyKey: Option<string>) {
    familyKey.Some? && familyKey.value != ""
  }

  function Bump(counts: map<string, nat>, name: string): map<string, nat> {
    counts[name := Get(counts, name) + 1]
  }

  function InitialFamilyState(p: Payload): FamilyState
    requires p.SearchPayload?
  {
    FamilyState(false, 0, None, map[p.triggerSource := 1], map[p.triggerReason := 1])
  }

  function CoalescedFamilyState(current: FamilyState, p: Payload, running: bool, nowMs: int): FamilyState
    requires p.SearchPayload?
  {
    var requestedAt := if p.requestedAt.Some? then p.requestedAt.value else nowMs;
    FamilyState(
      current.rerunRequested || (running && Get(current.reasonCounts, p.triggerReason) == 0),
      current.coalescedRequestCount + 1,
      Some(if current.latestRequestedAt.Some? && current.latestRequestedAt.value > requestedAt
           then current.latestRequestedAt.value else requestedAt),
      Bump(current.sourceCounts, p.triggerSource),
      Bump(current.reasonCounts, p.triggerReason))
  }

  function SuccessorFamilyState(current: FamilyState): FamilyState {
    current.(rerunRequested := false, coalescedRequestCount := 0)
  }

  // ── table constraints ─────────────────────────────────────────────

  predicate ActiveInFamily(jobs: map<string, Row>, k: string, family: string) {
    k in jobs && jobs[k].status.Active() && jobs[k].familyKey == Some(family)
  }

  /** The partial unique index over active rows with a non-null family key. */
  ghost predicate FamilyUnique(jobs: map<string, Row>) {
    forall a, b, f :: ActiveInFamily(jobs, a, f) && ActiveInFamily(jobs, b, f) ==> a == b
  }

  ghost predicate HasActive(jobs: map<string, Row>, family: string) {
    exists k :: ActiveInFamily(jobs, k, family)
  }

  ghost function ActiveKey(jobs: map<string, Row>, family: string): (k: string)
    requires HasActive(jobs, family)
    ensures ActiveInFamily(jobs, k, family)
  {
    var k :| ActiveInFamily(jobs, k, family);
    k
  }

  /** Whether an INSERT of `row` meets the primary key and the family index. */
  ghost predicate CanInsert(jobs: map<string, Row>, row: Row) {
    && row.jobKey !in jobs
    && (row.familyKey.Some? && row.status.Active() ==> !HasActive(jobs, row.familyKey.value))
  }

  // ── enqueue ───────────────────────────────────────────────────────

  function NewRow(i: EnqueueInput, family: FamilyState): Row {
    Row(i.jobKey, i.jobType, i.familyKey, i.executionClass, i.concurrencyKey, Pending,
        i.payloadVersion, i.payload, family, 0, None, None, None, None, 0, i.maxAttempts,
        if i.nextAttemptAt.Some? then i.nextAttemptAt.value else i.nowMs,
        None, None, None, i.nowMs, i.nowMs, None)
  }

  predicate Coalescing(i: EnqueueInput) {
    i.jobType.SearchRebuild? && HasFamily(i.familyKey)
  }

  function CoalesceInto(row: Row, i: EnqueueInput): Row
    requires i.payload.SearchPayload?
  {
    row.(family := CoalescedFamilyState(row.family, i.payload, row.status.Running?, i.nowMs),
         updatedAt := i.nowMs)
  }

  function Coalesce(db: Db, k: string, i: EnqueueInput): Db
    requires k in db.jobs && i.payload.SearchPayload?
  {
    db.(jobs := db.jobs[k := CoalesceInto(db.jobs[k], i)])
  }

  /** The enqueue as one atomic transaction. */
  ghost function Enqueue(db: Db, i: EnqueueInput): (Db, EnqueueReply)
    requires i.WellTyped()
  {
    if i.jobKey in db.jobs then
      (db, Duplicate(db.jobs[i.jobKey].status, db.jobs[i.jobKey].claimVersion))
    else if Coalescing(i) then
      if HasActive(db.jobs, i.familyKey.value) then
        var k := ActiveKey(db.jobs, i.familyKey.value);
        (Coalesce(db, k, i), Coalesced(k))
      else
        (db.(jobs := db.jobs[i.jobKey := NewRow(i, InitialFamilyState(i.payload))]), Created(i.jobKey))
    else
      var row := NewRow(i, EmptyFamilyState);
      if CanInsert(db.jobs, row) then
        (db.(jobs := db.jobs[i.jobKey := row]), Created(i.jobKey))
      else
        (db, EnqueueRaised)
  }

  // ── claim ─────────────────────────────────────────────────────────

  function ClaimedRow(row: Row, i: ClaimInput): Row {
    row.(status := Running,
         claimVersion := row.claimVersion + 1,
         claimedBy := Some(i.workerId),
         claimedAt := Some(i.nowMs),
         leaseExpiresAt := Some(i.nowMs + i.leaseDurationMs),
         lastHeartbeatAt := Some(i.nowMs),
         attemptCount := row.attemptCount + 1,
         updatedAt := i.nowMs)
  }

  function NewAttempt(row: Row, i: ClaimInput): Attempt {
    Attempt(row.jobKey, row.jobType, row.familyKey, row.executionClass, row.concurrencyKey,
            row.claimVersion, row.attemptCount, i.workerId, InProgress,
            row.payloadVersion, row.payload, row.family,
            i.nowMs, Some(i.nowMs), i.nowMs + i.leaseDurationMs, None, None, None, None)
  }

  /** The UPDATE and INSERT that claim one pending row; the INSERT can hit the attempts index. */
  function ClaimRow(db: Db, k: string, i: ClaimInput): (Db, ClaimReply)
    requires k in db.jobs && db.jobs[k].status.Pending?
  {
    var row := ClaimedRow(db.jobs[k], i);
    var id := AttemptId(row.jobKey, row.claimVersion);
    if id in db.attempts then (db, ClaimRaised)
    else (Db(db.jobs[k := row], db.attempts[id := NewAttempt(row, i)]), Claimed(row))
  }

  // ── fencing ───────────────────────────────────────────────────────

  predicate RunningAt(db: Db, k: string, version: nat) {
    k in db.jobs && db.jobs[k].claimVersion == version && db.jobs[k].status.Running?
  }

  function ClassifyFenceMiss(db: Db, k: string, version: nat): FenceMiss {
    if k !in db.jobs then NotFound
    else if db.jobs[k].claimVersion != version then StaleClaim
    else NotRunning
  }

  predicate InProgressAt(attempts: map<AttemptId, Attempt>, k: string, version: nat) {
    AttemptId(k, version) in attempts && attempts[AttemptId(k, version)].outcome.InProgress?
  }

  /** `UPDATE job_attempts ... WHERE job_key, claim_version AND outcome = 'running'` */
  function CloseAttempt(attempts: map<AttemptId, Attempt>, k: string, version: nat,
                        outcome: Outcome, nowMs: int): map<AttemptId, Attempt>
  {
    var id := AttemptId(k, version);
    if InProgressAt(attempts, k, version)
    then attempts[id := attempts[id].(outcome := outcome, finishedAt := Some(nowMs))]
    else attempts
  }

  /** What a missed fence writes: a stale caller's own attempt is marked lease_lost if still running. */
  function AfterFenceMiss(db: Db, k: string, version: nat, nowMs: int): Db {
    if ClassifyFenceMiss(db, k, version).StaleClaim?
    then db.(attempts := CloseAttempt(db.attempts, k, version, LeaseLost, nowMs))
    else db
  }

  function ClearClaim(row: Row): Row {
    row.(claimedBy := None, claimedAt := None, leaseExpiresAt := None, lastHeartbeatAt := None)
  }

  // ── heartbeat, complete, fail, cancel ─────────────────────────────

  const DEFAULT_HEARTBEAT_LEASE_EXTENSION_MS := 30_000
  const DEFAULT_RETRY_DELAY_MS := 5_000

  function Heartbeat(db: Db, k: string, version: nat, nowMs: int): (Db, HeartbeatReply) {
    var lease := nowMs + DEFAULT_HEARTBEAT_LEASE_EXTENSION_MS;
    if !RunningAt(db, k, version) then
      (AfterFenceMiss(db, k, version, nowMs), HeartbeatMissed(ClassifyFenceMiss(db, k, version)))
    else
      var id := AttemptId(k, version);
      (Db(db.jobs[k := db.jobs[k].(lastHeartbeatAt := Some(nowMs), leaseExpiresAt := Some(lease), updatedAt := nowMs)],
          if InProgressAt(db.attempts, k, version)
          then db.attempts[id := db.attempts[id].(lastHeartbeatAt := Some(nowMs), leaseExpiresAt := lease)]
          else db.attempts),
       Renewed(lease))
  }

  function TerminalRow(row: Row, status: Status, nowMs: int): Row {
    ClearClaim(row).(status := status, terminalAt := Some(nowMs), updatedAt := nowMs)
  }

  predicate WantsSuccessor(row: Row) {
    row.jobType.SearchRebuild? && HasFamily(row.familyKey) && row.family.rerunRequested
  }

  function Successor(row: Row, successorKey: string, nowMs: int): Row {
    Row(successorKey, row.jobType, row.familyKey, row.executionClass, row.concurrencyKey, Pending,
        row.payloadVersion, row.payload, SuccessorFamilyState(row.family), 0, None, None, None, None,
        0, row.maxAttempts, nowMs, None, None, None, nowMs, nowMs, None)
  }

  ghost function Complete(db: Db, k: string, version: nat, nowMs: int, successorKey: string): (Db, CompleteReply) {
    if !RunningAt(db, k, version) then
      (AfterFenceMiss(db, k, version, nowMs), CompleteMissed(ClassifyFenceMiss(db, k, version)))
    else
      var row := TerminalRow(db.jobs[k], Succeeded, nowMs);
      var done := Db(db.jobs[k := row], CloseAttempt(db.attempts, k, version, DoneSucceeded, nowMs));
      if !WantsSuccessor(row) then
        (done, Completed(nowMs))
      else
        var next := Successor(row, successorKey, nowMs);
        if CanInsert(done.jobs, next)
        then (done.(jobs := done.jobs[successorKey := next]), Completed(nowMs))
        else (db, CompleteRaised)
  }

  function WithError(row: Row, e: FailInput): Row {
    row.(lastErrorCode := e.errorCode, lastErrorMessage := Some(e.errorMessage), lastErrorAt := Some(e.nowMs))
  }

  function FailAttempt(attempts: map<AttemptId, Attempt>, k: string, version: nat,
                       outcome: Outcome, e: FailInput, backoff: Option<int>): map<AttemptId, Attempt>
  {
    var id := AttemptId(k, version);
    if InProgressAt(attempts, k, version)
    then attempts[id := attempts[id].(
                  outcome := outcome, finishedAt := Some(e.nowMs), errorCode := e.errorCode,
                  errorMessage := Some(e.errorMessage),
                  backoffUntil := if backoff.Some? then backoff else attempts[id].backoffUntil)]
    else attempts
  }

  function Fail(db: Db, k: string, version: nat, e: FailInput): (Db, FailReply) {
    var retryAt := e.nowMs + (if e.retryDelayMs.Some? then e.retryDelayMs.value else DEFAULT_RETRY_DELAY_MS);
    if !RunningAt(db, k, version) then
      (AfterFenceMiss(db, k, version, e.nowMs), FailMissed(ClassifyFenceMiss(db, k, version)))
    else
      var row := db.jobs[k];
      if row.attemptCount < row.maxAttempts then
        (Db(db.jobs[k := WithError(ClearClaim(row), e).(
                    status := Pending, nextAttemptAt := retryAt, terminalAt := None, updatedAt := e.nowMs)],
            FailAttempt(db.attempts, k, version, RetryScheduled, e, Some(retryAt))),
         WillRetry(retryAt))
      else
        (Db(db.jobs[k := WithError(TerminalRow(row, FailedTerminal, e.nowMs), e)],
            FailAttempt(db.attempts, k, version, DoneFailed, e, None)),
         FailedForGood(e.nowMs))
  }

  function Cancel(db: Db, k: string, version: nat, nowMs: int): (Db, CancelReply) {
    if !RunningAt(db, k, version) then
      (AfterFenceMiss(db, k, version, nowMs), CancelMissed(ClassifyFenceMiss(db, k, version)))
    else
      (Db(db.jobs[k := TerminalRow(db.jobs[k], Cancelled, nowMs)],
          CloseAttempt(db.attempts, k, version, DoneCancelled, nowMs)),
       CancelDone(nowMs))
  }

  // ── sweeper and retention ─────────────────────────────────────────

  predicate Expired(row: Row, nowMs: int) {
    row.status.Running? && row.leaseExpiresAt.Some? && row.leaseExpiresAt.value < nowMs
  }

  function ReclaimedRow(row: Row, nowMs: int): Row {
    ClearClaim(row).(status := Pending, nextAttemptAt := nowMs, updatedAt := nowMs)
  }

  /** The attempts whose lease the sweeper takes away. */
  predicate Swept(db: Db, id: AttemptId, nowMs: int) {
    && id in db.attempts
    && db.attempts[id].outcome.InProgress?
    && id.key in db.jobs
    && Expired(db.jobs[id.key], nowMs)
    && db.jobs[id.key].claimVersion == id.version
  }

  function ExpiredKeys(db: Db, nowMs: int): set<string> {
    set k | k in db.jobs && Expired(db.jobs[k], nowMs)
  }

  function ReclaimExpired(db: Db, nowMs: int): (Db, nat) {
    (Db(map k | k in db.jobs ::
          if Expired(db.jobs[k], nowMs) then ReclaimedRow(db.jobs[k], nowMs) else db.jobs[k],
        map id | id in db.attempts ::
          if Swept(db, id, nowMs)
          then db.attempts[id].(outcome := LeaseLost, finishedAt := Some(nowMs))
          else db.attempts[id]),
     |ExpiredKeys(db, nowMs)|)
  }

  /** Retention deletes some of the terminal rows and leaves the history alone. */
  function Cleanup(db: Db, doomed: set<string>): Db {
    db.(jobs := map k | k in db.jobs && !(k in doomed && db.jobs[k].status.Terminal()) :: db.jobs[k])
  }
}
