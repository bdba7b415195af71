/** The store object: each method runs one transaction, statement by statement, over the two tables,
    and has exactly the effect of the corresponding step of StoreSpec. */
module PgJobStores {
  import opened JobTypes
  import opened StoreSpec
  import opened StoreInvariants
  import opened ConcurrencyKeys
  import opened ClaimScan

  const SEARCH_PREFIX := "search.rebuild:"

  /** The key of a successor: the family key without its prefix, plus a random id. */
  function SuccessorKey(familyKey: string, uuid: string): string {
    var fragment := if SEARCH_PREFIX <= familyKey then familyKey[|SEARCH_PREFIX|..] else familyKey;
    SEARCH_PREFIX + fragment + ":req:" + uuid
  }

  /** Within a family, different random ids give different keys. */
  lemma SuccessorKeysDiffer(familyKey: string, uuid: string, uuid': string)
    requires uuid != uuid'
    ensures SuccessorKey(familyKey, uuid) != SuccessorKey(familyKey, uuid')
  {
    var fragment := if SEARCH_PREFIX <= familyKey then familyKey[|SEARCH_PREFIX|..] else familyKey;
    var head := SEARCH_PREFIX + fragment + ":req:";
    assert SuccessorKey(familyKey, uuid)[|head|..] == uuid;
    assert SuccessorKey(familyKey, uuid')[|head|..] == uuid';
  }

  /** The key says which family it is of: the family key, brought under the search prefix if it is not already, and
      then the request. */
  lemma SuccessorKeyNamesFamily(family: string, uuid: string)
    ensures SuccessorKey("search.rebuild:" + family, uuid) == "search.rebuild:" + family + ":req:" + uuid
    ensures !("search.rebuild:" <= family) ==> SuccessorKey(family, uuid) == "search.rebuild:" + family + ":req:" + uuid
  {
    assert ("search.rebuild:" + family)[|"search.rebuild:"|..] == family;
  }

  lemma ReclaimKeepsConstraints(db: Db, nowMs: int)
    requires FamilyUnique(db.jobs) && KeysAgree(db.jobs)
    ensures FamilyUnique(ReclaimExpired(db, nowMs).0.jobs) && KeysAgree(ReclaimExpired(db, nowMs).0.jobs)
  {
    SameActivity(db.jobs, ReclaimExpired(db, nowMs).0.jobs);
  }

  ghost predicate RowsReclaimed(jobs: map<string, Row>, db: Db, done: set<string>, nowMs: int) {
    && jobs.Keys == db.jobs.Keys
    && (forall k :: k in jobs ==> jobs[k] == if k in done then ReclaimedRow(db.jobs[k], nowMs) else db.jobs[k])
  }

  ghost predicate AttemptsReclaimed(attempts: map<AttemptId, Attempt>, db: Db, done: set<string>, nowMs: int) {
    && attempts.Keys == db.attempts.Keys
    && (forall id :: id in attempts ==>
          attempts[id] == if id.key in done && Swept(db, id, nowMs)
                          then db.attempts[id].(outcome := LeaseLost, finishedAt := Some(nowMs))
                          else db.attempts[id])
  }

  lemma OneMoreAttempt(attempts: map<AttemptId, Attempt>, db: Db, done: set<string>, k: string, nowMs: int)
    requires AttemptsReclaimed(attempts, db, done, nowMs) && k in db.jobs && k !in done && Expired(db.jobs[k], nowMs)
    ensures AttemptsReclaimed(CloseAttempt(attempts, k, db.jobs[k].claimVersion, LeaseLost, nowMs), db, done + {k}, nowMs)
  {
  }

  class PgJobStore {
    var jobs: map<string, Row>
    var attempts: map<AttemptId, Attempt>
    const policy: CapPolicy

    /** The constraints the schema enforces: primary key and family index. */
    ghost predicate Valid()
      reads this
    {
      FamilyUnique(jobs) && KeysAgree(jobs)
    }

    ghost function Tables(): Db
      reads this
    {
      Db(jobs, attempts)
    }

    constructor (thinkerGlobalCap: Option<int>)
      ensures Valid() && Tables() == Db(map[], map[])
      ensures policy == PgPolicy(thinkerGlobalCap)
    {
      jobs, attempts := map[], map[];
      policy := PgPolicy(thinkerGlobalCap);
    }

    // ── enqueue ─────────────────────────────────────────────────────

    method FindActive(family: string) returns (found: Option<string>)
      requires Valid()
      ensures found == if HasActive(jobs, family) then Some(ActiveKey(jobs, family)) else None
    {
      var active := set k | k in jobs && jobs[k].status.Active() && jobs[k].familyKey == Some(family);
      if active == {} {
        forall k ensures !ActiveInFamily(jobs, k, family) { assert k !in active; }
        return None;
      }
      var k :| k in active;
      assert ActiveInFamily(jobs, k, family);
      return Some(k);
    }

    method Enqueue(i: EnqueueInput) returns (reply: EnqueueReply)
      requires Valid() && i.WellTyped()
      modifies this
      ensures Valid()
      ensures (Tables(), reply) == StoreSpec.Enqueue(old(Tables()), i)
    {
      if i.jobKey in jobs {
        return Duplicate(jobs[i.jobKey].status, jobs[i.jobKey].claimVersion);
      }
      if Coalescing(i) {
        var active := FindActive(i.familyKey.value);
        if active.Some? {
          var k := active.value;
          jobs := jobs[k := CoalesceInto(jobs[k], i)];
          SameActivity(old(jobs), jobs);
          return Coalesced(k);
        }
        InsertUnique(jobs, NewRow(i, InitialFamilyState(i.payload)));
        jobs := jobs[i.jobKey := NewRow(i, InitialFamilyState(i.payload))];
        return Created(i.jobKey);
      }
      if i.familyKey.Some? {
        var active := FindActive(i.familyKey.value);
        if active.Some? {
          return EnqueueRaised;
        }
      }
      InsertUnique(jobs, NewRow(i, EmptyFamilyState));
      jobs := jobs[i.jobKey := NewRow(i, EmptyFamilyState)];
      reply := Created(i.jobKey);
    }

    // ── claim ───────────────────────────────────────────────────────

    /** `scan` is the physical row order; `locked` and `busy` are the rows and advisory locks that other
        transactions hold. */
    method ClaimNext(input: ClaimInput, scan: seq<string>, locked: set<string>, busy: set<string>)
      returns (reply: ClaimReply)
      requires Valid() && IsScan(jobs, scan)
      modifies this
      ensures Valid()
      ensures (Tables(), reply) == ClaimScan.ClaimNext(old(Tables()), policy, input, scan, locked, busy)
    {
      var ready := Candidates(jobs, scan, input.nowMs, locked);
      var found := ScanInBatches(jobs, policy, busy, ready, CLAIM_SCAN_BATCH_SIZE);
      if found.None? {
        return NoneReady;
      }
      CandidatesExactly(jobs, scan, input.nowMs, locked);
      assert found.value in ready;
      var k := found.value.jobKey;
      var row := ClaimedRow(jobs[k], input);
      if AttemptId(row.jobKey, row.claimVersion) in attempts {
        return ClaimRaised;
      }
      jobs := jobs[k := row];
      attempts := attempts[AttemptId(row.jobKey, row.claimVersion) := NewAttempt(row, input)];
      SameActivity(old(jobs), jobs);
      reply := Claimed(row);
    }

    // ── fenced calls ────────────────────────────────────────────────

    method MissFence(k: string, version: nat, nowMs: int) returns (miss: FenceMiss)
      requires Valid()
      modifies this`attempts
      ensures miss == ClassifyFenceMiss(old(Tables()), k, version)
      ensures Tables() == AfterFenceMiss(old(Tables()), k, version, nowMs)
    {
      if k !in jobs { return NotFound; }
      if jobs[k].claimVersion != version {
        MarkAttempt(k, version, LeaseLost, nowMs);
        return StaleClaim;
      }
      return NotRunning;
    }

    method MarkAttempt(k: string, version: nat, outcome: Outcome, nowMs: int)
      modifies this`attempts
      ensures attempts == CloseAttempt(old(attempts), k, version, outcome, nowMs)
    {
      var id := AttemptId(k, version);
      if id in attempts && attempts[id].outcome == InProgress {
        attempts := attempts[id := attempts[id].(outcome := outcome, finishedAt := Some(nowMs))];
      }
    }

    method Heartbeat(k: string, version: nat, nowMs: int) returns (reply: HeartbeatReply)
      requires Valid()
      modifies this
      ensures Valid()
      ensures (Tables(), reply) == StoreSpec.Heartbeat(old(Tables()), k, version, nowMs)
    {
      var lease := nowMs + DEFAULT_HEARTBEAT_LEASE_EXTENSION_MS;
      if k in jobs && jobs[k].claimVersion == version && jobs[k].status == Running {
        jobs := jobs[k := jobs[k].(lastHeartbeatAt := Some(nowMs), leaseExpiresAt := Some(lease), updatedAt := nowMs)];
        SameActivity(old(jobs), jobs);
        var id := AttemptId(k, version);
        if id in attempts && attempts[id].outcome == InProgress {
          attempts := attempts[id := attempts[id].(lastHeartbeatAt := Some(nowMs), leaseExpiresAt := lease)];
        }
        return Renewed(lease);
      }
      var miss := MissFence(k, version, nowMs);
      reply := HeartbeatMissed(miss);
    }

    method Complete(k: string, version: nat, nowMs: int, uuid: string) returns (reply: CompleteReply)
      requires Valid()
      modifies this
      ensures Valid()
      ensures var successorKey := if k in old(jobs) && HasFamily(old(jobs)[k].familyKey)
                                  then SuccessorKey(old(jobs)[k].familyKey.value, uuid) else "";
              (Tables(), reply) == StoreSpec.Complete(old(Tables()), k, version, nowMs, successorKey)
    {
      if !(k in jobs && jobs[k].claimVersion == version && jobs[k].status == Running) {
        var miss := MissFence(k, version, nowMs);
        return CompleteMissed(miss);
      }
      var jobsBefore, attemptsBefore := jobs, attempts;
      var row := TerminalRow(jobs[k], Succeeded, nowMs);
      jobs := jobs[k := row];
      SameActivity(old(jobs), jobs);
      MarkAttempt(k, version, DoneSucceeded, nowMs);
      if row.jobType == SearchRebuild && HasFamily(row.familyKey) && row.family.rerunRequested {
        var next := Successor(row, SuccessorKey(row.familyKey.value, uuid), nowMs);
        var active := FindActive(row.familyKey.value);
        if next.jobKey in jobs || active.Some? {
          jobs, attempts := jobsBefore, attemptsBefore;
          return CompleteRaised;
        }
        InsertUnique(jobs, next);
        jobs := jobs[next.jobKey := next];
      }
      reply := Completed(nowMs);
    }

    method Fail(k: string, version: nat, e: FailInput) returns (reply: FailReply)
      requires Valid()
      modifies this
      ensures Valid()
      ensures (Tables(), reply) == StoreSpec.Fail(old(Tables()), k, version, e)
    {
      var retryAt := e.nowMs + (if e.retryDelayMs.Some? then e.retryDelayMs.value else DEFAULT_RETRY_DELAY_MS);
      if !(k in jobs && jobs[k].claimVersion == version && jobs[k].status == Running) {
        var miss := MissFence(k, version, e.nowMs);
        return FailMissed(miss);
      }
      var id := AttemptId(k, version);
      var inProgress := id in attempts && attempts[id].outcome == InProgress;
      if jobs[k].attemptCount < jobs[k].maxAttempts {
        jobs := jobs[k := WithError(ClearClaim(jobs[k]), e).(
                     status := Pending, nextAttemptAt := retryAt, terminalAt := None, updatedAt := e.nowMs)];
        SameActivity(old(jobs), jobs);
        if inProgress {
          attempts := attempts[id := attempts[id].(
                               outcome := RetryScheduled, finishedAt := Some(e.nowMs), errorCode := e.errorCode,
                               errorMessage := Some(e.errorMessage), backoffUntil := Some(retryAt))];
        }
        return WillRetry(retryAt);
      }
      jobs := jobs[k := WithError(TerminalRow(jobs[k], FailedTerminal, e.nowMs), e)];
      SameActivity(old(jobs), jobs);
      if inProgress {
        attempts := attempts[id := attempts[id].(
                             outcome := DoneFailed, finishedAt := Some(e.nowMs), errorCode := e.errorCode,
                             errorMessage := Some(e.errorMessage))];
      }
      reply := FailedForGood(e.nowMs);
    }

    method Cancel(k: string, version: nat, nowMs: int) returns (reply: CancelReply)
      requires Valid()
      modifies this
      ensures Valid()
      ensures (Tables(), reply) == StoreSpec.Cancel(old(Tables()), k, version, nowMs)
    {
      if !(k in jobs && jobs[k].claimVersion == version && jobs[k].status == Running) {
        var miss := MissFence(k, version, nowMs);
        return CancelMissed(miss);
      }
      jobs := jobs[k := TerminalRow(jobs[k], Cancelled, nowMs)];
      SameActivity(old(jobs), jobs);
      MarkAttempt(k, version, DoneCancelled, nowMs);
      reply := CancelDone(nowMs);
    }

    // ── sweeper ─────────────────────────────────────────────────────

    /** Rows in `done` have been reclaimed, the others are as they were. */
    ghost predicate PartlyReclaimed(db: Db, done: set<string>, nowMs: int)
      reads this
    {
      RowsReclaimed(jobs, db, done, nowMs) && AttemptsReclaimed(attempts, db, done, nowMs)
    }

    method ReclaimOne(k: string, nowMs: int, ghost db: Db, ghost done: set<string>)
      requires k in jobs && k in db.jobs && k !in done && Expired(db.jobs[k], nowMs)
      requires PartlyReclaimed(db, done, nowMs)
      modifies this
      ensures PartlyReclaimed(db, done + {k}, nowMs)
    {
      OneMoreAttempt(attempts, db, done, k, nowMs);
      MarkAttempt(k, jobs[k].claimVersion, LeaseLost, nowMs);
      if jobs[k].status == Running {
        jobs := jobs[k := ReclaimedRow(jobs[k], nowMs)];
      }
    }

    /** The rows one after the other, in any order. */
    method ReclaimAll(expired: set<string>, nowMs: int, ghost db: Db)
      requires PartlyReclaimed(db, {}, nowMs) && expired == ExpiredKeys(db, nowMs)
      modifies this
      ensures PartlyReclaimed(db, expired, nowMs)
    {
      var rest := expired;
      while rest != {}
        invariant rest <= expired
        invariant PartlyReclaimed(db, expired - rest, nowMs)
      {
        var k :| k in rest;
        ReclaimOne(k, nowMs, db, expired - rest);
        assert expired - (rest - {k}) == expired - rest + {k};
        rest := rest - {k};
      }
      assert expired - rest == expired;
    }

    lemma FullyReclaimed(db: Db, nowMs: int)
      requires PartlyReclaimed(db, ExpiredKeys(db, nowMs), nowMs)
      ensures Tables() == ReclaimExpired(db, nowMs).0
    {
      assert jobs == ReclaimExpired(db, nowMs).0.jobs;
      assert attempts == ReclaimExpired(db, nowMs).0.attempts;
    }

    method ReclaimExpiredLeases(nowMs: int) returns (count: nat)
      requires Valid()
      modifies this
      ensures Valid()
      ensures (Tables(), count) == ReclaimExpired(old(Tables()), nowMs)
    {
      ghost var db := Tables();
      var expired := set k | k in jobs && jobs[k].status == Running
                             && jobs[k].leaseExpiresAt.Some? && jobs[k].leaseExpiresAt.value < nowMs;
      assert expired == ExpiredKeys(db, nowMs);
      ReclaimAll(expired, nowMs, db);
      FullyReclaimed(db, nowMs);
      ReclaimKeepsConstraints(db, nowMs);
      count := |expired|;
    }
  }
}
