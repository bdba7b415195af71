/** What every transaction of the durable store keeps: the two tables agree key by key,
    and a family has at most one active row. */
module StoreInvariants {
  import opened JobTypes
  import opened MapSums
  import opened StoreSpec

  // ── the invariant ─────────────────────────────────────────────────

  /** Claim columns are set exactly on running rows, terminal_at exactly on terminal rows. */
  predicate ClaimFieldsAgree(r: Row) {
    && (r.claimedBy.Some? <==> r.status.Running?)
    && (r.claimedAt.Some? <==> r.status.Running?)
    && (r.leaseExpiresAt.Some? <==> r.status.Running?)
    && (r.lastHeartbeatAt.Some? <==> r.status.Running?)
    && (r.terminalAt.Some? <==> r.status.Terminal())
  }

  /** The status of a row whose last attempt had this outcome. */
  function StatusAfter(o: Outcome): Status {
    match o
    case InProgress => Running
    case RetryScheduled => Pending
    case LeaseLost => Pending
    case DoneSucceeded => Succeeded
    case DoneFailed => FailedTerminal
    case DoneCancelled => Cancelled
  }

  /** The columns no transaction rewrites once a row is inserted. */
  predicate SameIdentity(r: Row, r': Row) {
    && r'.jobKey == r.jobKey && r'.jobType == r.jobType && r'.familyKey == r.familyKey
    && r'.executionClass == r.executionClass && r'.concurrencyKey == r.concurrencyKey
    && r'.payloadVersion == r.payloadVersion && r'.payload == r.payload
    && r'.maxAttempts == r.maxAttempts && r'.createdAt == r.createdAt
  }

  /** Attempt number `v` of row `r` was taken from that row; only the last one may be running or final. */
  predicate AttemptAgrees(a: Attempt, r: Row, v: nat) {
    && a.jobKey == r.jobKey && a.jobType == r.jobType && a.familyKey == r.familyKey
    && a.executionClass == r.executionClass && a.concurrencyKey == r.concurrencyKey
    && a.payloadVersion == r.payloadVersion && a.payloadSnapshot == r.payload
    && a.claimVersion == v && a.attemptNo == v
    && (a.finishedAt.None? <==> a.outcome.InProgress?)
    && (v < r.claimVersion ==> StatusAfter(a.outcome).Pending?)
    && (a.outcome.RetryScheduled? ==> v < r.maxAttempts)
  }

  predicate SameError(r: Row, a: Attempt) {
    r.lastErrorCode == a.errorCode && r.lastErrorMessage == a.errorMessage && r.lastErrorAt == a.finishedAt
  }

  /** What the last attempt says about the row, column by column. */
  predicate LastAttemptAgrees(r: Row, a: Attempt) {
    && r.status == StatusAfter(a.outcome)
    && (r.status.Terminal() ==> r.terminalAt == a.finishedAt)
    && match a.outcome
       case InProgress =>
         && r.leaseExpiresAt == Some(a.leaseExpiresAt) && r.lastHeartbeatAt == a.lastHeartbeatAt
         && r.claimedBy == Some(a.workerId) && r.claimedAt == Some(a.startedAt)
         && (r.family.rerunRequested || r.family.reasonCounts.Keys == a.familySnapshot.reasonCounts.Keys)
       case RetryScheduled => a.backoffUntil == Some(r.nextAttemptAt) && SameError(r, a)
       case DoneFailed => SameError(r, a)
       case LeaseLost => a.finishedAt == Some(r.nextAttemptAt)
       case _ => true
  }

  ghost predicate HistoryAgrees(db: Db, k: string)
    requires k in db.jobs
  {
    var r := db.jobs[k];
    && r.attemptCount == r.claimVersion
    && (forall v: nat :: AttemptId(k, v) in db.attempts <==> 1 <= v <= r.claimVersion)
    && (forall v: nat :: AttemptId(k, v) in db.attempts ==> AttemptAgrees(db.attempts[AttemptId(k, v)], r, v))
  }

  ghost predicate CurrentAgrees(db: Db, k: string)
    requires k in db.jobs && HistoryAgrees(db, k)
  {
    var r := db.jobs[k];
    if r.claimVersion == 0 then r.status.Pending?
    else LastAttemptAgrees(r, db.attempts[AttemptId(k, r.claimVersion)])
  }

  ghost predicate CountsPositive(f: FamilyState) {
    && (forall s :: s in f.sourceCounts ==> f.sourceCounts[s] >= 1)
    && (forall s :: s in f.reasonCounts ==> f.reasonCounts[s] >= 1)
  }

  /** History left behind by a deleted row: nothing running, nothing after a final outcome. */
  ghost predicate DepartedAgrees(db: Db, k: string) {
    forall v: nat :: AttemptId(k, v) in db.attempts ==>
      && !db.attempts[AttemptId(k, v)].outcome.InProgress?
      && (StatusAfter(db.attempts[AttemptId(k, v)].outcome).Terminal() ==>
            forall w: nat :: AttemptId(k, w) in db.attempts ==> w <= v)
  }

  ghost predicate KeyInv(db: Db, k: string) {
    if k in db.jobs then
      && db.jobs[k].jobKey == k
      && ClaimFieldsAgree(db.jobs[k])
      && CountsPositive(db.jobs[k].family)
      && HistoryAgrees(db, k)
      && CurrentAgrees(db, k)
    else
      DepartedAgrees(db, k)
  }

  ghost predicate StoreInv(db: Db) {
    && FamilyUnique(db.jobs)
    && forall k :: KeyInv(db, k)
  }

  /** A key that neither table knows; random successor keys and never-reused job keys are fresh. */
  ghost predicate FreshKey(db: Db, k: string) {
    k !in db.jobs && forall v: nat :: AttemptId(k, v) !in db.attempts
  }

  lemma EmptyStoreInv()
    ensures StoreInv(Db(map[], map[]))
  {
  }

  // ── framing ───────────────────────────────────────────────────────

  ghost predicate SameAt(db: Db, db': Db, k: string) {
    && (k in db.jobs <==> k in db'.jobs)
    && (k in db.jobs ==> db.jobs[k] == db'.jobs[k])
    && forall v: nat ::
         && (AttemptId(k, v) in db.attempts <==> AttemptId(k, v) in db'.attempts)
         && (AttemptId(k, v) in db.attempts ==> db.attempts[AttemptId(k, v)] == db'.attempts[AttemptId(k, v)])
  }

  lemma FrameKey(db: Db, db': Db, k: string)
    requires SameAt(db, db', k) && KeyInv(db, k)
    ensures KeyInv(db', k)
  {
  }

  /** A step that touches only the keys of `touched` needs a proof only for those. */
  lemma KeepsKeys(db: Db, db': Db, touched: set<string>)
    requires forall k :: KeyInv(db, k)
    requires forall k :: k !in touched ==> SameAt(db, db', k)
    requires forall k :: k in touched ==> KeyInv(db', k)
    ensures forall k :: KeyInv(db', k)
  {
    forall k ensures KeyInv(db', k) {
      if k !in touched { FrameKey(db, db', k); }
    }
  }

  // ── each transaction keeps it ─────────────────────────────────────

  lemma InsertUnique(jobs: map<string, Row>, row: Row)
    requires FamilyUnique(jobs) && CanInsert(jobs, row)
    ensures FamilyUnique(jobs[row.jobKey := row])
  {
    var jobs' := jobs[row.jobKey := row];
    forall a, b, f | ActiveInFamily(jobs', a, f) && ActiveInFamily(jobs', b, f) ensures a == b {
      assert a != row.jobKey ==> ActiveInFamily(jobs, a, f);
      assert b != row.jobKey ==> ActiveInFamily(jobs, b, f);
    }
  }

  lemma InsertKeeps(db: Db, row: Row)
    requires StoreInv(db) && FreshKey(db, row.jobKey) && CanInsert(db.jobs, row)
    requires row.status.Pending? && row.claimVersion == 0 && row.attemptCount == 0
    requires ClaimFieldsAgree(row) && CountsPositive(row.family)
    ensures StoreInv(db.(jobs := db.jobs[row.jobKey := row]))
  {
    var db' := db.(jobs := db.jobs[row.jobKey := row]);
    KeepsKeys(db, db', {row.jobKey});
    InsertUnique(db.jobs, row);
  }

  lemma EnqueueKeeps(db: Db, i: EnqueueInput)
    requires StoreInv(db) && i.WellTyped()
    requires i.jobKey in db.jobs || FreshKey(db, i.jobKey)
    ensures StoreInv(Enqueue(db, i).0)
  {
    if i.jobKey in db.jobs {
    } else if Coalescing(i) {
      if HasActive(db.jobs, i.familyKey.value) {
        CoalesceKeeps(db, ActiveKey(db.jobs, i.familyKey.value), i);
      } else {
        InsertKeeps(db, NewRow(i, InitialFamilyState(i.payload)));
      }
    } else if CanInsert(db.jobs, NewRow(i, EmptyFamilyState)) {
      InsertKeeps(db, NewRow(i, EmptyFamilyState));
    }
  }

  lemma CoalesceKeeps(db: Db, k: string, i: EnqueueInput)
    requires StoreInv(db) && k in db.jobs && i.payload.SearchPayload?
    ensures StoreInv(Coalesce(db, k, i))
  {
    var r := db.jobs[k];
    var r' := CoalesceInto(r, i);
    var db' := Coalesce(db, k, i);
    assert KeyInv(db, k);
    assert r'.status == r.status && r'.familyKey == r.familyKey;
    if Get(r.family.reasonCounts, i.payload.triggerReason) != 0 {
      assert r'.family.reasonCounts.Keys == r.family.reasonCounts.Keys;
    }
    assert forall v: nat :: AttemptId(k, v) in db.attempts ==>
        AttemptAgrees(db.attempts[AttemptId(k, v)], r, v) && AttemptAgrees(db.attempts[AttemptId(k, v)], r', v);
    assert CurrentAgrees(db', k);
    KeepsKeys(db, db', {k});
    SameActivity(db.jobs, db'.jobs);
  }

  /** Rows may leave the active set, but none may enter it or change family. */
  lemma SameActivity(jobs: map<string, Row>, jobs': map<string, Row>)
    requires FamilyUnique(jobs)
    requires forall k, f :: ActiveInFamily(jobs', k, f) ==> ActiveInFamily(jobs, k, f)
    ensures FamilyUnique(jobs')
  {
  }

  lemma ClaimKeeps(db: Db, k: string, i: ClaimInput)
    requires StoreInv(db) && k in db.jobs && db.jobs[k].status.Pending?
    ensures StoreInv(ClaimRow(db, k, i).0)
    ensures ClaimRow(db, k, i).1.Claimed?
  {
    var r := db.jobs[k];
    var db' := ClaimRow(db, k, i).0;
    assert KeyInv(db, k);
    assert AttemptId(k, r.claimVersion + 1) !in db.attempts;
    forall v: nat | AttemptId(k, v) in db.attempts
      ensures AttemptAgrees(db'.attempts[AttemptId(k, v)], db'.jobs[k], v)
    {
      assert AttemptAgrees(db.attempts[AttemptId(k, v)], r, v);
    }
    assert HistoryAgrees(db', k);
    KeepsKeys(db, db', {k});
    SameActivity(db.jobs, db'.jobs);
  }

  /** A row stops running: its attempt is closed with the outcome its new status reflects. */
  lemma CloseKeeps(db: Db, db': Db, k: string)
    requires StoreInv(db) && k in db.jobs && db.jobs[k].status.Running?
    requires k in db'.jobs && db'.jobs == db.jobs[k := db'.jobs[k]]
    requires var r, r' := db.jobs[k], db'.jobs[k];
             && ClaimFieldsAgree(r') && !r'.status.Running?
             && SameIdentity(r, r') && r'.family == r.family
             && r'.claimVersion == r.claimVersion && r'.attemptCount == r.attemptCount
             && var id := AttemptId(k, r.claimVersion);
             && id in db.attempts && id in db'.attempts
             && db'.attempts == db.attempts[id := db'.attempts[id]]
             && AttemptAgrees(db'.attempts[id], r', id.version)
             && LastAttemptAgrees(r', db'.attempts[id])
    ensures StoreInv(db')
  {
    var r := db.jobs[k];
    assert KeyInv(db, k);
    forall v: nat | AttemptId(k, v) in db'.attempts
      ensures AttemptAgrees(db'.attempts[AttemptId(k, v)], db'.jobs[k], v)
    {
      assert AttemptAgrees(db.attempts[AttemptId(k, v)], r, v);
    }
    assert HistoryAgrees(db', k);
    KeepsKeys(db, db', {k});
    SameActivity(db.jobs, db'.jobs);
  }

  /** In a consistent store a running row has its attempt in progress, and no other one is. */
  lemma RunningAttempt(db: Db, k: string, version: nat)
    requires KeyInv(db, k)
    ensures InProgressAt(db.attempts, k, version) <==> RunningAt(db, k, version)
  {
    if k in db.jobs && AttemptId(k, version) in db.attempts {
      assert AttemptAgrees(db.attempts[AttemptId(k, version)], db.jobs[k], version);
    }
  }

  /** The write a missed fence may make never finds a row to change. */
  lemma MissChangesNothing(db: Db, k: string, version: nat, nowMs: int)
    requires KeyInv(db, k) && !RunningAt(db, k, version)
    ensures AfterFenceMiss(db, k, version, nowMs) == db
  {
    RunningAttempt(db, k, version);
  }

  lemma HeartbeatKeeps(db: Db, k: string, version: nat, nowMs: int)
    requires StoreInv(db)
    ensures StoreInv(Heartbeat(db, k, version, nowMs).0)
  {
    assert KeyInv(db, k);
    if !RunningAt(db, k, version) {
      MissChangesNothing(db, k, version, nowMs);
    } else {
      RunningAttempt(db, k, version);
      var db' := Heartbeat(db, k, version, nowMs).0;
      forall v: nat | AttemptId(k, v) in db'.attempts
        ensures AttemptAgrees(db'.attempts[AttemptId(k, v)], db'.jobs[k], v)
      {
        assert AttemptAgrees(db.attempts[AttemptId(k, v)], db.jobs[k], v);
      }
      assert HistoryAgrees(db', k);
      KeepsKeys(db, db', {k});
      SameActivity(db.jobs, db'.jobs);
    }
  }

  lemma CompleteKeeps(db: Db, k: string, version: nat, nowMs: int, successorKey: string)
    requires StoreInv(db) && FreshKey(db, successorKey)
    ensures StoreInv(Complete(db, k, version, nowMs, successorKey).0)
    ensures !Complete(db, k, version, nowMs, successorKey).1.CompleteRaised?
  {
    assert KeyInv(db, k);
    if !RunningAt(db, k, version) {
      MissChangesNothing(db, k, version, nowMs);
    } else {
      RunningAttempt(db, k, version);
      var row := TerminalRow(db.jobs[k], Succeeded, nowMs);
      var done := Db(db.jobs[k := row], CloseAttempt(db.attempts, k, version, DoneSucceeded, nowMs));
      assert AttemptAgrees(db.attempts[AttemptId(k, version)], db.jobs[k], version);
      CloseKeeps(db, done, k);
      if WantsSuccessor(row) {
        var next := Successor(row, successorKey, nowMs);
        forall other ensures !ActiveInFamily(done.jobs, other, row.familyKey.value) {
          assert ActiveInFamily(db.jobs, k, row.familyKey.value);
          assert ActiveInFamily(done.jobs, other, row.familyKey.value) ==>
              ActiveInFamily(db.jobs, other, row.familyKey.value);
        }
        assert CanInsert(done.jobs, next);
        InsertKeeps(done, next);
      }
    }
  }

  lemma FailKeeps(db: Db, k: string, version: nat, e: FailInput)
    requires StoreInv(db)
    ensures StoreInv(Fail(db, k, version, e).0)
  {
    assert KeyInv(db, k);
    if !RunningAt(db, k, version) {
      MissChangesNothing(db, k, version, e.nowMs);
    } else {
      RunningAttempt(db, k, version);
      assert AttemptAgrees(db.attempts[AttemptId(k, version)], db.jobs[k], version);
      CloseKeeps(db, Fail(db, k, version, e).0, k);
    }
  }

  lemma CancelKeeps(db: Db, k: string, version: nat, nowMs: int)
    requires StoreInv(db)
    ensures StoreInv(Cancel(db, k, version, nowMs).0)
  {
    assert KeyInv(db, k);
    if !RunningAt(db, k, version) {
      MissChangesNothing(db, k, version, nowMs);
    } else {
      RunningAttempt(db, k, version);
      assert AttemptAgrees(db.attempts[AttemptId(k, version)], db.jobs[k], version);
      CloseKeeps(db, Cancel(db, k, version, nowMs).0, k);
    }
  }

  lemma ReclaimKeepsKey(db: Db, k: string, nowMs: int)
    requires KeyInv(db, k)
    ensures KeyInv(ReclaimExpired(db, nowMs).0, k)
  {
    var db' := ReclaimExpired(db, nowMs).0;
    if k in db.jobs && Expired(db.jobs[k], nowMs) {
      RunningAttempt(db, k, db.jobs[k].claimVersion);
      forall v: nat | AttemptId(k, v) in db'.attempts
        ensures AttemptAgrees(db'.attempts[AttemptId(k, v)], db'.jobs[k], v)
      {
        assert AttemptAgrees(db.attempts[AttemptId(k, v)], db.jobs[k], v);
      }
      assert HistoryAgrees(db', k);
      assert Swept(db, AttemptId(k, db.jobs[k].claimVersion), nowMs);
    } else {
      FrameKey(db, db', k);
    }
  }

  lemma ReclaimKeeps(db: Db, nowMs: int)
    requires StoreInv(db)
    ensures StoreInv(ReclaimExpired(db, nowMs).0)
  {
    forall k ensures KeyInv(ReclaimExpired(db, nowMs).0, k) { ReclaimKeepsKey(db, k, nowMs); }
    SameActivity(db.jobs, ReclaimExpired(db, nowMs).0.jobs);
  }

  lemma CleanupKeeps(db: Db, doomed: set<string>)
    requires StoreInv(db)
    ensures StoreInv(Cleanup(db, doomed))
  {
    var db' := Cleanup(db, doomed);
    forall k ensures KeyInv(db', k) {
      assert KeyInv(db, k);
      if k in db.jobs && k !in db'.jobs {
        forall v: nat | AttemptId(k, v) in db.attempts
          ensures !db.attempts[AttemptId(k, v)].outcome.InProgress?
          ensures StatusAfter(db.attempts[AttemptId(k, v)].outcome).Terminal() ==>
              forall w: nat :: AttemptId(k, w) in db.attempts ==> w <= v
        {
          assert AttemptAgrees(db.attempts[AttemptId(k, v)], db.jobs[k], v);
        }
      } else {
        FrameKey(db, db', k);
      }
    }
    SameActivity(db.jobs, db'.jobs);
  }
}
