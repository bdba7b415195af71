/** What the store invariant means for one state or one call. */
module StoreTheorems {
  import opened JobTypes
  import opened StoreSpec
  import opened StoreInvariants

  // ── the two tables agree ──────────────────────────────────────────

  /** Running at a version means: that attempt, with that lease, and no other, is in progress. */
  lemma LeaseAgreement(db: Db, k: string, version: nat)
    requires StoreInv(db)
    ensures RunningAt(db, k, version) <==>
            (k in db.jobs
             && InProgressAt(db.attempts, k, version)
             && db.jobs[k].leaseExpiresAt == Some(db.attempts[AttemptId(k, version)].leaseExpiresAt)
             && forall w: nat :: InProgressAt(db.attempts, k, w) ==> w == version)
  {
    forall w: nat ensures InProgressAt(db.attempts, k, w) <==> RunningAt(db, k, w) {
      assert KeyInv(db, k);
      RunningAttempt(db, k, w);
    }
    assert KeyInv(db, k);
    assert RunningAt(db, k, version) ==> CurrentAgrees(db, k);
  }

  /** The history alone determines version, attempt count and status of a row, and the columns its last
      attempt records. */
  lemma HistoryDeterminesRow(db: Db, k: string, n: nat)
    requires StoreInv(db) && k in db.jobs
    requires forall v: nat :: AttemptId(k, v) in db.attempts <==> 1 <= v <= n
    ensures db.jobs[k].claimVersion == n && db.jobs[k].attemptCount == n
    ensures db.jobs[k].status == if n == 0 then Pending else StatusAfter(db.attempts[AttemptId(k, n)].outcome)
    ensures n > 0 ==> LastAttemptAgrees(db.jobs[k], db.attempts[AttemptId(k, n)])
  {
    assert KeyInv(db, k);
    var c := db.jobs[k].claimVersion;
    assert c >= 1 ==> AttemptId(k, c) in db.attempts;
    assert n >= 1 ==> AttemptId(k, n) in db.attempts;
  }

  lemma SucceededAtMostOnce(db: Db, k: string, v: nat, w: nat)
    requires StoreInv(db)
    requires AttemptId(k, v) in db.attempts && db.attempts[AttemptId(k, v)].outcome.DoneSucceeded?
    requires AttemptId(k, w) in db.attempts && db.attempts[AttemptId(k, w)].outcome.DoneSucceeded?
    ensures v == w
  {
    assert KeyInv(db, k);
    if k in db.jobs {
      assert AttemptAgrees(db.attempts[AttemptId(k, v)], db.jobs[k], v);
      assert AttemptAgrees(db.attempts[AttemptId(k, w)], db.jobs[k], w);
    }
  }

  // ── retry budget ──────────────────────────────────────────────────

  ghost function AttemptsWith(db: Db, k: string, o: Outcome): set<AttemptId> {
    set id | id in db.attempts && id.key == k && db.attempts[id].outcome == o
  }

  ghost function Versions(k: string, n: nat): (s: set<AttemptId>)
    ensures |s| == n
    ensures forall id :: id in s <==> id.key == k && 1 <= id.version <= n
  {
    if n == 0 then {} else Versions(k, n - 1) + {AttemptId(k, n)}
  }

  lemma SubsetSize<T>(a: set<T>, b: set<T>)
    requires a <= b
    ensures |a| <= |b|
  {
    assert b == a + (b - a);
  }

  lemma RetriesWithinBudget(db: Db, k: string, budget: nat)
    requires KeyInv(db, k) && k in db.jobs
    requires budget >= 1 && budget >= db.jobs[k].maxAttempts
    ensures |AttemptsWith(db, k, RetryScheduled)| <= budget - 1
  {
    var retried := AttemptsWith(db, k, RetryScheduled);
    forall id | id in retried ensures id in Versions(k, budget - 1) {
      assert id == AttemptId(k, id.version);
      assert AttemptAgrees(db.attempts[AttemptId(k, id.version)], db.jobs[k], id.version);
    }
    SubsetSize(retried, Versions(k, budget - 1));
  }

  /** The attempt a row that is not pending is still on, or ended with. */
  ghost function CurrentAttempt(db: Db, k: string): set<AttemptId>
    requires k in db.jobs
  {
    if db.jobs[k].status.Pending? then {} else {AttemptId(k, db.jobs[k].claimVersion)}
  }

  predicate Waited(db: Db, id: AttemptId) {
    id in db.attempts && (db.attempts[id].outcome.RetryScheduled? || db.attempts[id].outcome.LeaseLost?)
  }

  /** A claimed version was retried, or lost its lease, or is the current attempt. */
  lemma VersionSplit(db: Db, k: string, v: nat)
    requires KeyInv(db, k) && k in db.jobs
    ensures 1 <= v <= db.jobs[k].claimVersion <==> Waited(db, AttemptId(k, v)) || AttemptId(k, v) in CurrentAttempt(db, k)
    ensures !(Waited(db, AttemptId(k, v)) && AttemptId(k, v) in CurrentAttempt(db, k))
  {
    var id, r := AttemptId(k, v), db.jobs[k];
    if id in db.attempts { assert AttemptAgrees(db.attempts[id], r, v); }
    if r.claimVersion == 0 { assert r.status.Pending?; }
  }

  /** All versions together are the waited and the current attempts. */
  lemma VersionsSplit(db: Db, k: string, all: set<AttemptId>, waited: set<AttemptId>)
    requires KeyInv(db, k) && k in db.jobs
    requires forall id :: id in all <==> id.key == k && 1 <= id.version <= db.jobs[k].claimVersion
    requires forall id :: id in waited <==> id.key == k && Waited(db, id)
    ensures all == waited + CurrentAttempt(db, k) && waited !! CurrentAttempt(db, k)
  {
    forall id
      ensures id in all <==> id in waited || id in CurrentAttempt(db, k)
      ensures !(id in waited && id in CurrentAttempt(db, k))
    {
      if id.key == k {
        VersionSplit(db, k, id.version);
        assert id == AttemptId(k, id.version);
      }
    }
  }

  lemma WaitedSize(db: Db, k: string, retried: set<AttemptId>, lost: set<AttemptId>, waited: set<AttemptId>)
    requires retried == AttemptsWith(db, k, RetryScheduled) && lost == AttemptsWith(db, k, LeaseLost)
    requires waited == retried + lost
    ensures |waited| == |retried| + |lost|
    ensures forall id :: id in waited <==> id.key == k && Waited(db, id)
  {
    DisjointSize(waited, retried, lost);
  }

  lemma DisjointSize<T>(all: set<T>, a: set<T>, b: set<T>)
    requires all == a + b && a !! b
    ensures |all| == |a| + |b|
  {
  }

  function Budget(r: Row): nat {
    if r.maxAttempts >= 1 then r.maxAttempts else 1
  }

  /** Attempts are retries, lost leases and the current attempt, each counted once. At most max_attempts - 1 are
      retries; so the limit is passed exactly when more leases are lost than retries and the current attempt
      leave room for. */
  lemma AttemptCountExactly(db: Db, k: string)
    requires StoreInv(db) && k in db.jobs
    ensures var r := db.jobs[k];
            var retried, lost := |AttemptsWith(db, k, RetryScheduled)|, |AttemptsWith(db, k, LeaseLost)|;
            var current := if r.status.Pending? then 0 else 1;
            && r.attemptCount == retried + lost + current
            && retried <= Budget(r) - 1
            && (r.attemptCount > Budget(r) <==> lost > Budget(r) - retried - current)
  {
    assert KeyInv(db, k);
    var retried, lost := AttemptsWith(db, k, RetryScheduled), AttemptsWith(db, k, LeaseLost);
    RetriesWithinBudget(db, k, Budget(db.jobs[k]));
    var all := Versions(k, db.jobs[k].claimVersion);
    WaitedSize(db, k, retried, lost, retried + lost);
    VersionsSplit(db, k, all, retried + lost);
    DisjointSize(all, retried + lost, CurrentAttempt(db, k));
  }

  // ── fencing of one call ───────────────────────────────────────────

  /** A call on a version that is not running now changes neither table and is told why: there is no such job, the job
      has another version now, or its version is right but not running. */
  lemma FencedCallsChangeNothing(db: Db, k: string, version: nat, nowMs: int, e: FailInput, successorKey: string)
    requires StoreInv(db) && !RunningAt(db, k, version)
    ensures var miss := if k !in db.jobs then NotFound
                        else if db.jobs[k].claimVersion != version then StaleClaim else NotRunning;
            && Heartbeat(db, k, version, nowMs) == (db, HeartbeatMissed(miss))
            && Complete(db, k, version, nowMs, successorKey) == (db, CompleteMissed(miss))
            && Fail(db, k, version, e) == (db, FailMissed(miss))
            && Cancel(db, k, version, nowMs) == (db, CancelMissed(miss))
  {
    assert KeyInv(db, k);
    MissChangesNothing(db, k, version, nowMs);
    MissChangesNothing(db, k, version, e.nowMs);
  }

  // ── reruns ────────────────────────────────────────────────────────

  /** The reasons a running row has counted that its latest claim had not seen. */
  ghost predicate HasNewReason(db: Db, k: string)
    requires k in db.jobs
  {
    var id := AttemptId(k, db.jobs[k].claimVersion);
    && id in db.attempts
    && exists reason :: reason in db.jobs[k].family.reasonCounts
                        && reason !in db.attempts[id].familySnapshot.reasonCounts
  }

  lemma NewReasonRequestsRerun(db: Db, k: string)
    requires StoreInv(db) && k in db.jobs && db.jobs[k].status.Running? && HasNewReason(db, k)
    ensures db.jobs[k].family.rerunRequested
  {
    assert KeyInv(db, k);
    var id := AttemptId(k, db.jobs[k].claimVersion);
    var reason :| reason in db.jobs[k].family.reasonCounts && reason !in db.attempts[id].familySnapshot.reasonCounts;
    assert reason in db.jobs[k].family.reasonCounts.Keys && reason !in db.attempts[id].familySnapshot.reasonCounts.Keys;
  }

  /** The only active row of its family, pending, never claimed, carrying the given counts. */
  ghost predicate SoleSuccessor(db: Db, k: string, from: Row) {
    && k in db.jobs && from.familyKey.Some?
    && var next := db.jobs[k];
    && next.status.Pending? && next.claimVersion == 0 && next.jobType.SearchRebuild?
    && next.familyKey == from.familyKey && next.concurrencyKey == from.concurrencyKey
    && next.executionClass == from.executionClass && next.payload == from.payload
    && next.maxAttempts == from.maxAttempts
    && next.family.reasonCounts == from.family.reasonCounts
    && next.family.sourceCounts == from.family.sourceCounts
    && next.family.latestRequestedAt == from.family.latestRequestedAt
    && !next.family.rerunRequested && next.family.coalescedRequestCount == 0
    && forall other :: ActiveInFamily(db.jobs, other, from.familyKey.value) <==> other == k
  }

  /** A successful completion inserts a successor exactly when a rerun was requested. */
  lemma CompletionSuccessor(db: Db, k: string, version: nat, nowMs: int, successorKey: string)
    requires StoreInv(db) && FreshKey(db, successorKey)
    requires RunningAt(db, k, version) && db.jobs[k].jobType.SearchRebuild? && HasFamily(db.jobs[k].familyKey)
    ensures var after := Complete(db, k, version, nowMs, successorKey).0;
            var wanted := db.jobs[k].family.rerunRequested;
            && (wanted ==> SoleSuccessor(after, successorKey, db.jobs[k])
                           && after.jobs.Keys == db.jobs.Keys + {successorKey})
            && (!wanted ==> !HasActive(after.jobs, db.jobs[k].familyKey.value)
                            && after.jobs.Keys == db.jobs.Keys)
  {
    CompleteKeeps(db, k, version, nowMs, successorKey);
    var family := db.jobs[k].familyKey.value;
    var after := Complete(db, k, version, nowMs, successorKey).0;
    assert ActiveInFamily(db.jobs, k, family);
    forall other | other != successorKey ensures !ActiveInFamily(after.jobs, other, family) {
      assert ActiveInFamily(after.jobs, other, family) ==> ActiveInFamily(db.jobs, other, family);
    }
  }

  /** Terminal failure and cancellation leave the family without any active row: a rerun request is dropped. */
  lemma RerunDroppedWithoutSuccess(db: Db, k: string, version: nat, nowMs: int, e: FailInput)
    requires StoreInv(db) && RunningAt(db, k, version) && db.jobs[k].familyKey.Some?
    ensures !HasActive(Cancel(db, k, version, nowMs).0.jobs, db.jobs[k].familyKey.value)
    ensures Cancel(db, k, version, nowMs).0.jobs.Keys == db.jobs.Keys
    ensures !HasActive(Fail(db, k, version, e).0.jobs, db.jobs[k].familyKey.value)
            <==> db.jobs[k].attemptCount >= db.jobs[k].maxAttempts
    ensures Fail(db, k, version, e).0.jobs.Keys == db.jobs.Keys
  {
    var family := db.jobs[k].familyKey.value;
    assert ActiveInFamily(db.jobs, k, family);
    var cancelled, failed := Cancel(db, k, version, nowMs).0, Fail(db, k, version, e).0;
    forall other
      ensures !ActiveInFamily(cancelled.jobs, other, family)
      ensures ActiveInFamily(failed.jobs, other, family) ==> other == k
    {
      assert ActiveInFamily(cancelled.jobs, other, family) ==> ActiveInFamily(db.jobs, other, family);
      assert ActiveInFamily(failed.jobs, other, family) ==> ActiveInFamily(db.jobs, other, family);
    }
    assert ActiveInFamily(failed.jobs, k, family) <==> db.jobs[k].attemptCount < db.jobs[k].maxAttempts;
  }

  // ── what goes wrong when a job key is reused ──────────────────────

  /** A claim raises exactly when the history already holds the version the row would get. */
  lemma ClaimRaisesExactly(db: Db, k: string, i: ClaimInput)
    requires k in db.jobs && db.jobs[k].jobKey == k && db.jobs[k].status.Pending?
    ensures ClaimRow(db, k, i).1.ClaimRaised? <==> AttemptId(k, db.jobs[k].claimVersion + 1) in db.attempts
    ensures ClaimRow(db, k, i).1.ClaimRaised? ==> ClaimRow(db, k, i).0 == db
  {
  }

  /** Retention keeps the history. So enqueueing a deleted key again, if it does not coalesce into or collide with
      an active row of its family, creates a row no claim can take. */
  lemma ReusedKeyCannotBeClaimed(db: Db, k: string, doomed: set<string>, i: EnqueueInput, c: ClaimInput)
    requires StoreInv(db) && k in db.jobs && db.jobs[k].status.Terminal() && k in doomed
    requires i.jobKey == k && i.WellTyped()
    ensures var again := Enqueue(Cleanup(db, doomed), i);
            && (again.1 == Created(k) <==> i.familyKey.Some? ==> !HasActive(db.jobs, i.familyKey.value))
            && (again.1 == Created(k) ==>
                  && k in again.0.jobs && again.0.jobs[k].status.Pending?
                  && ClaimRow(again.0, k, c) == (again.0, ClaimRaised)
                  && !StoreInv(again.0))
  {
    assert KeyInv(db, k);
    assert AttemptId(k, 1) in db.attempts;
    CleanupKeepsActive(db, doomed);
    var again := Enqueue(Cleanup(db, doomed), i);
    if again.1 == Created(k) {
      assert AttemptId(k, 1) in again.0.attempts;
      ClaimRaisesExactly(again.0, k, c);
      assert !KeyInv(again.0, k);
    }
  }

  lemma CleanupKeepsActive(db: Db, doomed: set<string>)
    ensures forall f :: HasActive(Cleanup(db, doomed).jobs, f) <==> HasActive(db.jobs, f)
  {
    forall f ensures HasActive(Cleanup(db, doomed).jobs, f) <==> HasActive(db.jobs, f) {
      assert forall k :: ActiveInFamily(Cleanup(db, doomed).jobs, k, f) <==> ActiveInFamily(db.jobs, k, f);
    }
  }
}
