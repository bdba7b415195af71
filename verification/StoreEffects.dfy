/** What pairs of transactions do to one job: when it becomes ready, when its lease ends, what a claim hands out. */
module StoreEffects {
  import opened JobTypes
  import opened MapSums
  import opened StoreSpec
  import opened StoreInvariants
  import opened StoreTheorems
  import opened StoreRuns
  import opened ClaimScan

  /** Every other key keeps its row, and every other attempt is as it was. */
  ghost predicate TouchesOnly(db: Db, db': Db, k: string, version: nat) {
    && (forall other :: other != k ==> (other in db'.jobs <==> other in db.jobs))
    && (forall other :: other != k && other in db.jobs && other in db'.jobs ==> db'.jobs[other] == db.jobs[other])
    && (forall id :: id != AttemptId(k, version) ==> (id in db'.attempts <==> id in db.attempts))
    && (forall id :: id != AttemptId(k, version) && id in db.attempts && id in db'.attempts ==> db'.attempts[id] == db.attempts[id])
  }

  // ── over runs ─────────────────────────────────────────────────────

  /** A row keeps its identity as long as it exists, and once deleted it does not come back. */
  ghost predicate SameOrGone(db: Db, k: string, row: Row) {
    if k in db.jobs then SameIdentity(row, db.jobs[k]) else !FreshKey(db, k)
  }

  lemma StepKeepsSame(db: Db, s: Step, k: string, row: Row)
    requires StoreInv(db) && Admissible(db, s) && SameOrGone(db, k, row)
    ensures SameOrGone(Apply(db, s), k, row)
  {
    assert KeyInv(db, k);
    if k in db.jobs {
      if Enqueues(s) {
        EnqueueGrows(db, s, k);
      } else if k in Apply(db, s).jobs {
        RowFrame(db, s, k);
      } else {
        StepKeepsAttemptIds(db, s, AttemptId(k, 1));
      }
    } else {
      var v: nat :| AttemptId(k, v) in db.attempts;
      StepKeepsAttemptIds(db, s, AttemptId(k, v));
      NotFreshNotCreated(db, s, k);
    }
  }

  lemma {:induction false} RunKeepsSame(states: seq<Db>, steps: seq<Step>, m: nat, n: nat, k: string, row: Row)
    requires IsRun(states, steps) && m <= n < |states| && SameOrGone(states[m], k, row)
    ensures SameOrGone(states[n], k, row)
    decreases n
  {
    if m < n {
      RunKeepsSame(states, steps, m, n - 1, k, row);
      RunKeeps(states, steps, n - 1);
      StepKeepsSame(states[n - 1], steps[n - 1], k, row);
    }
  }

  /** Whatever happens in between, every claim of a job hands out what was enqueued under its key; the first one
      comes as version 1 and no earlier than the requested time. */
  lemma ClaimsHandOutWhatWasEnqueued(states: seq<Db>, steps: seq<Step>, m: nat, n: nat)
    requires IsRun(states, steps) && m < n < |steps|
    requires steps[m].DoEnqueue? && Enqueue(states[m], steps[m].input).1.Created?
    requires steps[n].DoClaim? && steps[n].k == steps[m].input.jobKey
    ensures var i, reply := steps[m].input, ClaimRow(states[n], steps[n].k, steps[n].claim).1;
            && reply.Claimed? && reply.job.jobKey == i.jobKey
            && reply.job.jobType == i.jobType && reply.job.familyKey == i.familyKey
            && reply.job.executionClass == i.executionClass && reply.job.concurrencyKey == i.concurrencyKey
            && reply.job.payload == i.payload && reply.job.payloadVersion == i.payloadVersion
            && reply.job.maxAttempts == i.maxAttempts && reply.job.createdAt == i.nowMs
            && reply.job.claimVersion == reply.job.attemptCount && reply.job.claimedBy == Some(steps[n].claim.workerId)
            && Ready(states[n].jobs[i.jobKey], steps[n].claim.nowMs)
            && ((forall j :: m < j < n && steps[j].DoClaim? ==> steps[j].k != i.jobKey) ==>
                  && reply.job.claimVersion == 1
                  && forall t :: Ready(states[n].jobs[i.jobKey], t)
                                 <==> t >= if i.nextAttemptAt.Some? then i.nextAttemptAt.value else i.nowMs)
  {
    var i := steps[m].input;
    var row := states[m + 1].jobs[i.jobKey];
    RunKeepsSame(states, steps, m + 1, n, i.jobKey, row);
    RunKeeps(states, steps, n);
    assert KeyInv(states[n], i.jobKey);
    ClaimKeeps(states[n], i.jobKey, steps[n].claim);
    if forall j :: m < j < n && steps[j].DoClaim? ==> steps[j].k != i.jobKey {
      PendingUntilClaimed(states, steps, m + 1, n, i.jobKey);
    }
  }

  ghost predicate LeaseUntil(db: Db, k: string, version: nat, lease: int) {
    RunningAt(db, k, version) && db.jobs[k].leaseExpiresAt.Some? && db.jobs[k].leaseExpiresAt.value >= lease
  }

  /** Sweeps come before the lease ends, the worker does not settle, and its heartbeats do not go back in time. */
  ghost predicate LeavesClaim(db: Db, s: Step, k: string, version: nat, lease: int) {
    && (s.DoReclaim? ==> s.nowMs <= lease)
    && (s.DoHeartbeat? && s.k == k && s.version == version ==> s.nowMs + 30_000 >= lease)
    && ((s.DoComplete? || s.DoFail? || s.DoCancel?) ==> !TakesEffect(db, s, k, version))
  }

  lemma StepKeepsLease(db: Db, s: Step, k: string, version: nat, lease: int)
    requires StoreInv(db) && Admissible(db, s) && LeaseUntil(db, k, version, lease) && LeavesClaim(db, s, k, version, lease)
    ensures LeaseUntil(Apply(db, s), k, version, lease)
  {
  }

  /** A claim, or a heartbeat with its thirty seconds, holds over whole runs: until its lease ends no sweep takes the
      job, and no call of another version disturbs it, whatever else is enqueued, claimed and settled meanwhile.
      The first sweep after the lease then recorded takes it. */
  lemma {:induction false} LeaseHoldsOverRuns(states: seq<Db>, steps: seq<Step>, m: nat, n: nat, k: string, version: nat, lease: int)
    requires IsRun(states, steps) && m < n < |states|
    requires RunningAt(states[m + 1], k, version)
    requires || (steps[m] == DoHeartbeat(k, version, lease - 30_000) && RunningAt(states[m], k, version))
             || (steps[m].DoClaim? && steps[m].k == k && lease == steps[m].claim.nowMs + steps[m].claim.leaseDurationMs)
    requires forall j :: m < j < n ==> LeavesClaim(states[j], steps[j], k, version, lease)
    ensures LeaseUntil(states[n], k, version, lease)
    ensures forall t :: RunningAt(ReclaimExpired(states[n], t).0, k, version) <==> t <= states[n].jobs[k].leaseExpiresAt.value
    decreases n
  {
    if m + 1 == n {
      RunKeeps(states, steps, m);
      if steps[m].DoClaim? { ClaimKeeps(states[m], k, steps[m].claim); }
    } else {
      LeaseHoldsOverRuns(states, steps, m, n - 1, k, version, lease);
      RunKeeps(states, steps, n - 1);
      StepKeepsLease(states[n - 1], steps[n - 1], k, version, lease);
    }
  }

  // ── one transaction after another ─────────────────────────────────

  /** A claim starts the next version with a lease of the asked length and touches nothing else. */
  lemma ClaimHoldsItsLease(db: Db, k: string, i: ClaimInput, sweepAt: int)
    requires StoreInv(db) && k in db.jobs && db.jobs[k].status.Pending?
    ensures var (db', reply) := ClaimRow(db, k, i);
            var version := db.jobs[k].claimVersion + 1;
            && reply.Claimed? && RunningAt(db', k, version) && InProgressAt(db'.attempts, k, version)
            && TouchesOnly(db, db', k, version)
            && (RunningAt(ReclaimExpired(db', sweepAt).0, k, version) <==> sweepAt <= i.nowMs + i.leaseDurationMs)
  {
    assert KeyInv(db, k);
  }

  /** How a row and its attempt stand after a settlement. */
  ghost predicate Stands(db: Db, k: string, version: nat, status: Status, outcome: Outcome) {
    && k in db.jobs && db.jobs[k].status == status && db.jobs[k].claimVersion == version
    && AttemptId(k, version) in db.attempts && db.attempts[AttemptId(k, version)].outcome == outcome
  }

  /** A failure with attempts left puts the job back; one without ends it as failed, at the time of the failure. */
  lemma FailEndsExactly(db: Db, k: string, version: nat, e: FailInput)
    requires StoreInv(db) && RunningAt(db, k, version)
    ensures var (db', reply) := Fail(db, k, version, e);
            if db.jobs[k].attemptCount < db.jobs[k].maxAttempts then
              && Stands(db', k, version, Pending, RetryScheduled) && reply.WillRetry?
              && db'.jobs[k].terminalAt == None
            else
              && Stands(db', k, version, FailedTerminal, DoneFailed) && reply == FailedForGood(e.nowMs)
              && db'.jobs[k].terminalAt == Some(e.nowMs) && AttemptId(k, version) in db.attempts
              && db'.attempts[AttemptId(k, version)].backoffUntil == db.attempts[AttemptId(k, version)].backoffUntil
    ensures var (db', reply) := Fail(db, k, version, e);
            && k in db'.jobs && AttemptId(k, version) in db'.attempts && db'.jobs[k].lastErrorAt == Some(e.nowMs)
            && db'.attempts[AttemptId(k, version)].finishedAt == Some(e.nowMs)
  {
    assert KeyInv(db, k);
    RunningAttempt(db, k, version);
  }

  /** A completion ends the job as succeeded, a cancellation as cancelled, each at its own time; the row keeps what
      earlier failures left in it. */
  lemma SettlementsEndExactly(db: Db, k: string, version: nat, nowMs: int, successorKey: string)
    requires StoreInv(db) && RunningAt(db, k, version) && FreshKey(db, successorKey)
    ensures var (db', reply) := Complete(db, k, version, nowMs, successorKey);
            && Stands(db', k, version, Succeeded, DoneSucceeded) && reply == Completed(nowMs)
            && db'.jobs[k].terminalAt == Some(nowMs) && db'.attempts[AttemptId(k, version)].finishedAt == Some(nowMs)
            && db'.jobs[k].lastErrorMessage == db.jobs[k].lastErrorMessage
    ensures var (db', reply) := Cancel(db, k, version, nowMs);
            && Stands(db', k, version, Cancelled, DoneCancelled) && reply == CancelDone(nowMs)
            && TouchesOnly(db, db', k, version)
            && db'.jobs[k].terminalAt == Some(nowMs) && db'.attempts[AttemptId(k, version)].finishedAt == Some(nowMs)
            && db'.jobs[k].lastErrorMessage == db.jobs[k].lastErrorMessage
  {
    assert KeyInv(db, k);
    RunningAttempt(db, k, version);
    CompleteKeeps(db, k, version, nowMs, successorKey);
  }

  /** The successor of a completed search row is ready exactly from the completion on, and starts afresh. */
  lemma SuccessorIsReadyExactly(db: Db, k: string, version: nat, nowMs: int, successorKey: string, t: int)
    requires StoreInv(db) && RunningAt(db, k, version) && FreshKey(db, successorKey)
    requires db.jobs[k].jobType.SearchRebuild? && HasFamily(db.jobs[k].familyKey) && db.jobs[k].family.rerunRequested
    ensures var after := Complete(db, k, version, nowMs, successorKey).0;
            && successorKey in after.jobs && (Ready(after.jobs[successorKey], t) <==> t >= nowMs)
            && after.jobs[successorKey].createdAt == nowMs && after.jobs[successorKey].attemptCount == 0
            && after.jobs[successorKey].payloadVersion == db.jobs[k].payloadVersion
            && after.jobs[successorKey].lastErrorCode == None && after.jobs[successorKey].lastErrorMessage == None
  {
    CompletionSuccessor(db, k, version, nowMs, successorKey);
  }

  /** A heartbeat renews the lease in the row and in the attempt, for thirty seconds from its own time. */
  lemma HeartbeatRenewsBoth(db: Db, k: string, version: nat, nowMs: int)
    requires StoreInv(db) && RunningAt(db, k, version)
    ensures var (db', reply) := Heartbeat(db, k, version, nowMs);
            && TouchesOnly(db, db', k, version) && Stands(db', k, version, Running, InProgress)
            && reply == Renewed(nowMs + 30_000) && db'.jobs[k].leaseExpiresAt == Some(nowMs + 30_000)
            && db'.attempts[AttemptId(k, version)].leaseExpiresAt == nowMs + 30_000
            && db'.jobs[k].lastHeartbeatAt == db'.attempts[AttemptId(k, version)].lastHeartbeatAt == Some(nowMs)
  {
    assert KeyInv(db, k);
    RunningAttempt(db, k, version);
  }

  /** On tables where a stale attempt was left open, the call of its worker closes it as lost; in consistent tables
      there is none. */
  lemma StaleCallClosesItsAttempt(db: Db, k: string, version: nat, nowMs: int)
    requires k in db.jobs && db.jobs[k].claimVersion != version && InProgressAt(db.attempts, k, version)
    ensures var db' := Heartbeat(db, k, version, nowMs).0;
            && TouchesOnly(db, db', k, version) && db'.jobs == db.jobs
            && db'.attempts[AttemptId(k, version)].outcome == LeaseLost
            && db'.attempts[AttemptId(k, version)].finishedAt == Some(nowMs)
    ensures !StoreInv(db)
  {
    if StoreInv(db) {
      assert KeyInv(db, k);
      RunningAttempt(db, k, version);
    }
  }

  /** An enqueue of a known key changes nothing and reports how often the job has been claimed, and as what its
      last attempt has left it. */
  lemma DuplicateReportsHistory(db: Db, i: EnqueueInput, n: nat)
    requires StoreInv(db) && i.WellTyped() && i.jobKey in db.jobs
    requires forall v: nat :: AttemptId(i.jobKey, v) in db.attempts <==> 1 <= v <= n
    ensures Enqueue(db, i) ==
            (db, Duplicate(if n == 0 then Pending else StatusAfter(db.attempts[AttemptId(i.jobKey, n)].outcome), n))
  {
    HistoryDeterminesRow(db, i.jobKey, n);
  }

  /** The sweep takes exactly the running rows whose lease ended before, and says how many. */
  lemma SweepTakesExactly(db: Db, nowMs: int, k: string)
    requires StoreInv(db) && k in db.jobs
    ensures var (db', count) := ReclaimExpired(db, nowMs);
            var lost := set j | j in db.jobs && db.jobs[j].status.Running? && db.jobs[j].leaseExpiresAt.Some?
                                && db.jobs[j].leaseExpiresAt.value < nowMs;
            && count == |lost| && db'.jobs.Keys == db.jobs.Keys && db'.attempts.Keys == db.attempts.Keys
            && (k !in lost ==> db'.jobs[k] == db.jobs[k])
            && (k in lost ==> Stands(db', k, db.jobs[k].claimVersion, Pending, LeaseLost)
                              && db'.attempts[AttemptId(k, db.jobs[k].claimVersion)].finishedAt == Some(nowMs))
  {
    assert KeyInv(db, k);
    RunningAttempt(db, k, db.jobs[k].claimVersion);
    assert ExpiredKeys(db, nowMs) == set j | j in db.jobs && db.jobs[j].status.Running? && db.jobs[j].leaseExpiresAt.Some?
                                             && db.jobs[j].leaseExpiresAt.value < nowMs;
  }

  /** A family's first request is counted once under its own source and once under its own reason; a job without a
      family to coalesce in counts nothing. */
  lemma CreationStartsCounting(db: Db, i: EnqueueInput, name: string)
    requires i.WellTyped() && Enqueue(db, i).1.Created?
    ensures i.jobKey in Enqueue(db, i).0.jobs
    ensures var f := Enqueue(db, i).0.jobs[i.jobKey].family;
            && !f.rerunRequested && f.coalescedRequestCount == 0 && f.latestRequestedAt == None
            && if i.jobType == SearchRebuild && i.familyKey.Some? && i.familyKey.value != "" then
                 && Get(f.reasonCounts, name) == (if name == i.payload.triggerReason then 1 else 0)
                 && Get(f.sourceCounts, name) == (if name == i.payload.triggerSource then 1 else 0)
               else f.reasonCounts == map[] && f.sourceCounts == map[]
  {
  }

  /** The time at which a step happens, for those that have one. */
  function TimeOf(s: Step): Option<int> {
    match s
    case DoEnqueue(i) => Some(i.nowMs)
    case DoCoalesce(_, i) => Some(i.nowMs)
    case DoClaim(_, c) => Some(c.nowMs)
    case DoHeartbeat(_, _, t) => Some(t)
    case DoComplete(_, _, t, _) => Some(t)
    case DoFail(_, _, e) => Some(e.nowMs)
    case DoCancel(_, _, t) => Some(t)
    case DoReclaim(t) => Some(t)
    case DoCleanup(_) => None
  }

  /** Every row a step creates or changes carries the time of the step, by which listings are ordered. */
  lemma ChangedRowsAreStamped(db: Db, s: Step, k: string)
    requires StoreInv(db) && Admissible(db, s) && k in Apply(db, s).jobs
    requires k !in db.jobs || Apply(db, s).jobs[k] != db.jobs[k]
    ensures TimeOf(s) == Some(Apply(db, s).jobs[k].updatedAt)
    ensures k !in db.jobs ==> Apply(db, s).jobs[k].createdAt == Apply(db, s).jobs[k].updatedAt
  {
  }

  /** A failure is retried while attempts are left: the job is ready again exactly from the end of the delay;
      otherwise it is never ready again. The error is kept in the row and in the attempt. */
  lemma FailedJobIsReadyExactly(db: Db, k: string, version: nat, e: FailInput, t: int)
    requires StoreInv(db) && RunningAt(db, k, version)
    ensures var (db', reply) := Fail(db, k, version, e);
            && TouchesOnly(db, db', k, version) && k in db'.jobs && AttemptId(k, version) in db'.attempts
            && (Ready(db'.jobs[k], t) <==>
                  && db.jobs[k].attemptCount < db.jobs[k].maxAttempts
                  && t >= e.nowMs + if e.retryDelayMs.Some? then e.retryDelayMs.value else 5_000)
            && (reply.WillRetry? ==> reply == WillRetry(db'.jobs[k].nextAttemptAt)
                                     && db'.attempts[AttemptId(k, version)].backoffUntil == Some(reply.nextAttemptAt))
            && db'.jobs[k].lastErrorCode == db'.attempts[AttemptId(k, version)].errorCode == e.errorCode
            && db'.jobs[k].lastErrorMessage == db'.attempts[AttemptId(k, version)].errorMessage == Some(e.errorMessage)
  {
    assert KeyInv(db, k);
    RunningAttempt(db, k, version);
  }

  /** Sweeping again, at the same time or an earlier one, finds nothing; whatever was taken is ready at once. */
  lemma SweepIsIdempotent(db: Db, nowMs: int, earlier: int)
    requires earlier <= nowMs
    ensures var swept := ReclaimExpired(db, nowMs).0;
            && ReclaimExpired(swept, earlier) == (swept, 0)
            && (forall k :: k in db.jobs && Expired(db.jobs[k], nowMs) ==> k in swept.jobs && Ready(swept.jobs[k], nowMs))
            && (ReclaimExpired(db, nowMs).1 == 0 <==> swept == db)
  {
    var swept := ReclaimExpired(db, nowMs).0;
    assert forall k :: k in swept.jobs ==> !Expired(swept.jobs[k], earlier);
    assert ExpiredKeys(swept, earlier) == {};
    assert ReclaimExpired(swept, earlier).0.jobs == swept.jobs;
    assert ReclaimExpired(swept, earlier).0.attempts == swept.attempts;
    if ExpiredKeys(db, nowMs) == {} {
      assert forall k :: k in db.jobs ==> k !in ExpiredKeys(db, nowMs);
      assert swept.jobs == db.jobs && swept.attempts == db.attempts;
    } else {
      var k :| k in ExpiredKeys(db, nowMs);
      assert swept.jobs[k].status.Pending? && db.jobs[k].status.Running?;
    }
  }

  /** A worker whose lease was taken and given to another is told that its claim is stale, whatever it calls,
      and leaves the new claim alone. */
  lemma LostLeaseIsStale(db: Db, k: string, version: nat, sweepAt: int, c: ClaimInput, nowMs: int, e: FailInput, successorKey: string)
    requires StoreInv(db) && RunningAt(db, k, version) && Expired(db.jobs[k], sweepAt)
    ensures var swept := ReclaimExpired(db, sweepAt).0;
            && k in swept.jobs && swept.jobs[k].status.Pending?
            && Complete(swept, k, version, nowMs, successorKey) == (swept, CompleteMissed(NotRunning))
            && ClaimRow(swept, k, c).1.Claimed?
            && var retaken := ClaimRow(swept, k, c).0;
            && RunningAt(retaken, k, version + 1)
            && Heartbeat(retaken, k, version, nowMs) == (retaken, HeartbeatMissed(StaleClaim))
            && Complete(retaken, k, version, nowMs, successorKey) == (retaken, CompleteMissed(StaleClaim))
            && Fail(retaken, k, version, e) == (retaken, FailMissed(StaleClaim))
            && Cancel(retaken, k, version, nowMs) == (retaken, CancelMissed(StaleClaim))
  {
    var swept := ReclaimExpired(db, sweepAt).0;
    ReclaimKeeps(db, sweepAt);
    assert KeyInv(swept, k);
    ClaimKeeps(swept, k, c);
    var retaken := ClaimRow(swept, k, c).0;
    FencedCallsChangeNothing(swept, k, version, nowMs, e, successorKey);
    FencedCallsChangeNothing(retaken, k, version, nowMs, e, successorKey);
  }

  /** `latest` is the greatest of the times seen before and the new one. */
  predicate IsLatest(before: Option<int>, requestedAt: int, latest: Option<int>) {
    && latest.Some? && latest.value >= requestedAt && (before.Some? ==> latest.value >= before.value)
    && (latest.value == requestedAt || latest == before)
  }

  /** A request for an active family adds no row. It is counted once under its source and once under its
      reason, and nothing but the family state and the time of the row changes. */
  lemma CoalescingCountsOnce(db: Db, i: EnqueueInput, name: string)
    requires StoreInv(db) && i.WellTyped() && Coalescing(i) && i.jobKey !in db.jobs && HasActive(db.jobs, i.familyKey.value)
    ensures var (db', reply) := Enqueue(db, i);
            && reply.Coalesced? && ActiveInFamily(db.jobs, reply.into, i.familyKey.value)
            && db'.jobs.Keys == db.jobs.Keys && db'.attempts == db.attempts
            && (forall other :: other in db.jobs && other != reply.into ==> db'.jobs[other] == db.jobs[other])
            && var (r, r') := (db.jobs[reply.into], db'.jobs[reply.into]);
            && r' == r.(family := r'.family, updatedAt := i.nowMs)
            && r'.family.coalescedRequestCount == r.family.coalescedRequestCount + 1
            && Get(r'.family.reasonCounts, name)
               == Get(r.family.reasonCounts, name) + (if name == i.payload.triggerReason then 1 else 0)
            && Get(r'.family.sourceCounts, name)
               == Get(r.family.sourceCounts, name) + (if name == i.payload.triggerSource then 1 else 0)
            && (r'.family.rerunRequested <==>
                  r.family.rerunRequested || (r.status.Running? && i.payload.triggerReason !in r.family.reasonCounts))
            && IsLatest(r.family.latestRequestedAt, if i.payload.requestedAt.Some? then i.payload.requestedAt.value else i.nowMs,
                        r'.family.latestRequestedAt)
  {
    var k := ActiveKey(db.jobs, i.familyKey.value);
    assert KeyInv(db, k);
  }
}
