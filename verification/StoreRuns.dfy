/** Whole runs of the durable store: any number of workers, enqueuers, the sweeper and
    retention, interleaved in any order. */
module StoreRuns {
  import opened JobTypes
  import opened StoreSpec
  import opened StoreInvariants
  import opened StoreTheorems

  datatype Step =
    | DoEnqueue(input: EnqueueInput)
    /** An enqueue that found its family's active row only in a later statement, when others may have
        inserted its own key meanwhile. */
    | DoCoalesce(k: string, input: EnqueueInput)
    | DoClaim(k: string, claim: ClaimInput)
    | DoHeartbeat(k: string, version: nat, nowMs: int)
    | DoComplete(k: string, version: nat, nowMs: int, successorKey: string)
    | DoFail(k: string, version: nat, error: FailInput)
    | DoCancel(k: string, version: nat, nowMs: int)
    | DoReclaim(nowMs: int)
    | DoCleanup(doomed: set<string>)

  /** What callers and the environment promise: typed inputs, keys never reused, random successor
      keys fresh. Claims may pick any ready row, in any order. */
  ghost predicate Admissible(db: Db, s: Step) {
    match s
    case DoEnqueue(i) => i.WellTyped() && (i.jobKey in db.jobs || FreshKey(db, i.jobKey))
    case DoCoalesce(k, i) => i.WellTyped() && Coalescing(i) && ActiveInFamily(db.jobs, k, i.familyKey.value)
    case DoClaim(k, i) => k in db.jobs && db.jobs[k].status.Pending? && db.jobs[k].nextAttemptAt <= i.nowMs
    case DoComplete(k, v, t, successorKey) => FreshKey(db, successorKey)
    case _ => true
  }

  ghost function Apply(db: Db, s: Step): Db
    requires Admissible(db, s)
  {
    match s
    case DoEnqueue(i) => Enqueue(db, i).0
    case DoCoalesce(k, i) => Coalesce(db, k, i)
    case DoClaim(k, i) => ClaimRow(db, k, i).0
    case DoHeartbeat(k, v, t) => Heartbeat(db, k, v, t).0
    case DoComplete(k, v, t, successorKey) => Complete(db, k, v, t, successorKey).0
    case DoFail(k, v, e) => Fail(db, k, v, e).0
    case DoCancel(k, v, t) => Cancel(db, k, v, t).0
    case DoReclaim(t) => ReclaimExpired(db, t).0
    case DoCleanup(doomed) => Cleanup(db, doomed)
  }

  ghost predicate IsRun(states: seq<Db>, steps: seq<Step>) {
    && |states| == |steps| + 1
    && StoreInv(states[0])
    && forall n :: 0 <= n < |steps| ==> Admissible(states[n], steps[n]) && states[n + 1] == Apply(states[n], steps[n])
  }

  // ── one step ──────────────────────────────────────────────────────

  lemma StepKeeps(db: Db, s: Step)
    requires StoreInv(db) && Admissible(db, s)
    ensures StoreInv(Apply(db, s))
  {
    match s
    case DoEnqueue(i) => EnqueueKeeps(db, i);
    case DoCoalesce(k, i) => CoalesceKeeps(db, k, i);
    case DoClaim(k, i) => ClaimKeeps(db, k, i);
    case DoHeartbeat(k, v, t) => HeartbeatKeeps(db, k, v, t);
    case DoComplete(k, v, t, successorKey) => CompleteKeeps(db, k, v, t, successorKey);
    case DoFail(k, v, e) => FailKeeps(db, k, v, e);
    case DoCancel(k, v, t) => CancelKeeps(db, k, v, t);
    case DoReclaim(t) => ReclaimKeeps(db, t);
    case DoCleanup(doomed) => CleanupKeeps(db, doomed);
  }

  /** A closed attempt is history: no later step touches it. */
  lemma StepKeepsClosedAttempts(db: Db, s: Step, id: AttemptId)
    requires StoreInv(db) && Admissible(db, s)
    requires id in db.attempts && !db.attempts[id].outcome.InProgress?
    ensures id in Apply(db, s).attempts && Apply(db, s).attempts[id] == db.attempts[id]
  {
    if s.DoClaim? {
      ClaimKeeps(db, s.k, s.claim);
    }
  }

  /** A terminal row stays as it is until retention deletes it. */
  lemma StepKeepsTerminalRows(db: Db, s: Step, k: string)
    requires StoreInv(db) && Admissible(db, s) && k in db.jobs && db.jobs[k].status.Terminal()
    ensures var db' := Apply(db, s);
            (k in db'.jobs && db'.jobs[k] == db.jobs[k]) || (s.DoCleanup? && k in s.doomed && k !in db'.jobs)
  {
    if s.DoComplete? && RunningAt(db, s.k, s.version) {
      CompleteKeeps(db, s.k, s.version, s.nowMs, s.successorKey);
    }
  }

  // ── whole runs ────────────────────────────────────────────────────

  lemma ExtendRun(states: seq<Db>, steps: seq<Step>, s: Step) returns (states': seq<Db>, steps': seq<Step>)
    requires IsRun(states, steps) && Admissible(states[|steps|], s)
    ensures IsRun(states', steps') && steps' == steps + [s]
    ensures states'[0] == states[0] && states'[|steps'|] == Apply(states[|steps|], s)
  {
    states', steps' := states + [Apply(states[|steps|], s)], steps + [s];
    forall n | 0 <= n < |steps'| ensures Admissible(states'[n], steps'[n]) && states'[n + 1] == Apply(states'[n], steps'[n]) {
      if n < |steps| { assert states'[n] == states[n] && states'[n + 1] == states[n + 1] && steps'[n] == steps[n]; }
    }
  }

  lemma {:induction false} RunKeeps(states: seq<Db>, steps: seq<Step>, n: nat)
    requires IsRun(states, steps) && n < |states|
    ensures StoreInv(states[n])
  {
    if n > 0 {
      RunKeeps(states, steps, n - 1);
      StepKeeps(states[n - 1], steps[n - 1]);
    }
  }

  lemma {:induction false} ClosedAttemptsAreFinal(states: seq<Db>, steps: seq<Step>, m: nat, n: nat, id: AttemptId)
    requires IsRun(states, steps) && m <= n < |states|
    requires id in states[m].attempts && !states[m].attempts[id].outcome.InProgress?
    ensures id in states[n].attempts && states[n].attempts[id] == states[m].attempts[id]
    decreases n
  {
    if m < n {
      ClosedAttemptsAreFinal(states, steps, m, n - 1, id);
      RunKeeps(states, steps, n - 1);
      StepKeepsClosedAttempts(states[n - 1], steps[n - 1], id);
    }
  }

  /** A terminal row is never changed; retention may delete it, and then it never comes back. */
  lemma {:induction false} TerminalRowsAreFinal(states: seq<Db>, steps: seq<Step>, m: nat, n: nat, k: string)
    requires IsRun(states, steps) && m <= n < |states|
    requires k in states[m].jobs && states[m].jobs[k].status.Terminal()
    ensures k in states[n].jobs ==> states[n].jobs[k] == states[m].jobs[k]
    ensures k !in states[n].jobs ==> AttemptId(k, 1) in states[n].attempts
    decreases n
  {
    RunKeeps(states, steps, m);
    assert KeyInv(states[m], k);
    if m < n {
      TerminalRowsAreFinal(states, steps, m, n - 1, k);
      var db, s := states[n - 1], steps[n - 1];
      RunKeeps(states, steps, n - 1);
      assert KeyInv(db, k);
      if k in db.jobs {
        StepKeepsTerminalRows(db, s, k);
        assert AttemptId(k, 1) in db.attempts;
      }
      StepKeepsAttemptIds(db, s, AttemptId(k, 1));
    }
  }

  lemma StepKeepsAttemptIds(db: Db, s: Step, id: AttemptId)
    requires Admissible(db, s) && id in db.attempts
    ensures id in Apply(db, s).attempts
  {
  }

  // ── fencing over runs ─────────────────────────────────────────────

  /** The step ends the attempt that claimed `k` as `version`: it replied so, or the sweeper took the lease. */
  ghost predicate TakesEffect(db: Db, s: Step, k: string, version: nat) {
    match s
    case DoComplete(k', v, t, successorKey) => k' == k && v == version && Complete(db, k, v, t, successorKey).1.Completed?
    case DoFail(k', v, e) => k' == k && v == version && !Fail(db, k, v, e).1.FailMissed?
    case DoCancel(k', v, t) => k' == k && v == version && Cancel(db, k, v, t).1.CancelDone?
    case DoReclaim(t) => RunningAt(db, k, version) && Expired(db.jobs[k], t)
    case _ => false
  }

  /** Taking effect is exactly closing an attempt that was in progress. */
  lemma EffectClosesAttempt(db: Db, s: Step, k: string, version: nat)
    requires StoreInv(db) && Admissible(db, s)
    ensures TakesEffect(db, s, k, version) <==>
            InProgressAt(db.attempts, k, version) && !InProgressAt(Apply(db, s).attempts, k, version)
  {
    assert KeyInv(db, k);
    RunningAttempt(db, k, version);
    if s.DoComplete? {
      CompleteKeeps(db, s.k, s.version, s.nowMs, s.successorKey);
      MissIsNoop(db, s.k, s.version, s.nowMs);
    } else if s.DoFail? {
      MissIsNoop(db, s.k, s.version, s.error.nowMs);
    } else if s.DoCancel? || s.DoHeartbeat? {
      MissIsNoop(db, s.k, s.version, s.nowMs);
    } else if s.DoReclaim? {
      assert Swept(db, AttemptId(k, version), s.nowMs) <==> TakesEffect(db, s, k, version);
    }
  }

  lemma MissIsNoop(db: Db, k: string, version: nat, nowMs: int)
    requires StoreInv(db)
    ensures !RunningAt(db, k, version) ==> AfterFenceMiss(db, k, version, nowMs) == db
    ensures RunningAt(db, k, version) ==> InProgressAt(db.attempts, k, version)
  {
    assert KeyInv(db, k);
    RunningAttempt(db, k, version);
  }

  /** For each claim, at most one completion, failure, cancellation or reclaim ever takes effect. */
  lemma FencedOverRuns(states: seq<Db>, steps: seq<Step>, m: nat, n: nat, k: string, version: nat)
    requires IsRun(states, steps) && m < n < |steps|
    requires TakesEffect(states[m], steps[m], k, version)
    ensures !TakesEffect(states[n], steps[n], k, version)
  {
    RunKeeps(states, steps, m);
    RunKeeps(states, steps, n);
    EffectClosesAttempt(states[m], steps[m], k, version);
    StepKeepsAttemptIds(states[m], steps[m], AttemptId(k, version));
    ClosedAttemptsAreFinal(states, steps, m + 1, n, AttemptId(k, version));
    EffectClosesAttempt(states[n], steps[n], k, version);
  }

  /** Over a whole run at most one completion of a key succeeds, whatever versions are used. */
  lemma OneSuccessPerKey(states: seq<Db>, steps: seq<Step>, m: nat, n: nat, k: string, v: nat, w: nat)
    requires IsRun(states, steps) && m < n < |steps|
    requires steps[m].DoComplete? && TakesEffect(states[m], steps[m], k, v)
    requires steps[n].DoComplete?
    ensures !TakesEffect(states[n], steps[n], k, w)
  {
    RunKeeps(states, steps, m);
    RunKeeps(states, steps, n);
    RunKeeps(states, steps, n + 1);
    EffectClosesAttempt(states[m], steps[m], k, v);
    ClosedAttemptsAreFinal(states, steps, m + 1, n + 1, AttemptId(k, v));
    if TakesEffect(states[n], steps[n], k, w) {
      EffectClosesAttempt(states[n], steps[n], k, w);
      FencedOverRuns(states, steps, m, n, k, v);
      SucceededAtMostOnce(states[n + 1], k, v, w);
    }
  }

  /** A worker that claimed `k` as `version` settles that attempt with its own complete, whatever ran in
      between: afterwards it is closed, and it succeeded exactly when the reply says so. */
  lemma WorkerSettlesItsClaim(states: seq<Db>, steps: seq<Step>, m: nat, n: nat)
    requires IsRun(states, steps) && m < n < |steps|
    requires steps[m].DoClaim? && steps[n].DoComplete? && steps[n].k == steps[m].k
    requires steps[n].version == states[m].jobs[steps[m].k].claimVersion + 1
    ensures var id := AttemptId(steps[m].k, steps[n].version);
            && id in states[n + 1].attempts
            && !states[n + 1].attempts[id].outcome.InProgress?
            && (states[n + 1].attempts[id].outcome.DoneSucceeded?
                <==> TakesEffect(states[n], steps[n], id.key, id.version)
                     || (id in states[n].attempts && states[n].attempts[id].outcome.DoneSucceeded?))
  {
    var k, v := steps[m].k, steps[n].version;
    RunKeeps(states, steps, m);
    RunKeeps(states, steps, n);
    assert KeyInv(states[m], k);
    ClaimKeeps(states[m], k, steps[m].claim);
    AttemptIdsStay(states, steps, m + 1, n, AttemptId(k, v));
    assert KeyInv(states[n], k);
    RunningAttempt(states[n], k, v);
    EffectClosesAttempt(states[n], steps[n], k, v);
    if !RunningAt(states[n], k, v) {
      MissChangesNothing(states[n], k, v, steps[n].nowMs);
    } else {
      CompleteKeeps(states[n], k, v, steps[n].nowMs, steps[n].successorKey);
    }
  }

  lemma {:induction false} AttemptIdsStay(states: seq<Db>, steps: seq<Step>, m: nat, n: nat, id: AttemptId)
    requires IsRun(states, steps) && m <= n < |states| && id in states[m].attempts
    ensures id in states[n].attempts
    decreases n
  {
    if m < n {
      AttemptIdsStay(states, steps, m, n - 1, id);
      StepKeepsAttemptIds(states[n - 1], steps[n - 1], id);
    }
  }

  // ── backoff over runs ─────────────────────────────────────────────

  lemma PendingStep(db: Db, s: Step, k: string)
    requires KeyInv(db, k) && Admissible(db, s) && k in db.jobs && db.jobs[k].status.Pending?
    requires s.DoClaim? ==> s.k != k
    ensures var db' := Apply(db, s);
            && k in db'.jobs && db'.jobs[k].status.Pending?
            && db'.jobs[k].nextAttemptAt == db.jobs[k].nextAttemptAt
            && db'.jobs[k].claimVersion == db.jobs[k].claimVersion
  {
  }

  /** A pending row waits unchanged, except for its family state, until something claims it. */
  lemma {:induction false} PendingUntilClaimed(states: seq<Db>, steps: seq<Step>, m: nat, n: nat, k: string)
    requires IsRun(states, steps) && m <= n < |states|
    requires k in states[m].jobs && states[m].jobs[k].status.Pending?
    requires forall j :: m <= j < n && steps[j].DoClaim? ==> steps[j].k != k
    ensures k in states[n].jobs && states[n].jobs[k].status.Pending?
    ensures states[n].jobs[k].nextAttemptAt == states[m].jobs[k].nextAttemptAt
    ensures states[n].jobs[k].claimVersion == states[m].jobs[k].claimVersion
    decreases n
  {
    if m < n {
      PendingUntilClaimed(states, steps, m, n - 1, k);
      RunKeeps(states, steps, n - 1);
      PendingStep(states[n - 1], steps[n - 1], k);
    }
  }

  /** After a retryable failure the next claim of the job comes no earlier than the promised time. */
  lemma BackoffRespected(states: seq<Db>, steps: seq<Step>, m: nat, n: nat, retryAt: int)
    requires IsRun(states, steps) && m < n < |steps|
    requires steps[m].DoFail? && steps[n].DoClaim? && steps[n].k == steps[m].k
    requires Fail(states[m], steps[m].k, steps[m].version, steps[m].error).1 == WillRetry(retryAt)
    requires forall j :: m < j < n && steps[j].DoClaim? ==> steps[j].k != steps[m].k
    ensures retryAt <= steps[n].claim.nowMs
    ensures states[n].jobs[steps[n].k].claimVersion == steps[m].version
  {
    RunKeeps(states, steps, m);
    PendingUntilClaimed(states, steps, m + 1, n, steps[m].k);
  }

  // ── rerun requests over runs ──────────────────────────────────────

  ghost predicate CountsGrow(f: FamilyState, f': FamilyState) {
    && (forall s :: s in f.reasonCounts ==> s in f'.reasonCounts && f.reasonCounts[s] <= f'.reasonCounts[s])
    && (forall s :: s in f.sourceCounts ==> s in f'.sourceCounts && f.sourceCounts[s] <= f'.sourceCounts[s])
    && (f.latestRequestedAt.Some? ==>
          f'.latestRequestedAt.Some? && f'.latestRequestedAt.value >= f.latestRequestedAt.value)
  }

  /** Row `k` still asks for a rerun and has lost none of the counts in `f`, or it is gone for good. */
  ghost predicate StillAsks(db: Db, k: string, f: FamilyState, jobType: JobKind, familyKey: Option<string>) {
    if k in db.jobs then
      && db.jobs[k].claimVersion >= 1
      && db.jobs[k].family.rerunRequested && CountsGrow(f, db.jobs[k].family)
      && db.jobs[k].jobType == jobType && db.jobs[k].familyKey == familyKey
    else !FreshKey(db, k)
  }

  predicate Enqueues(s: Step) { s.DoEnqueue? || s.DoCoalesce? }

  /** Apart from coalescing, no step rewrites the family state or the identity of a row. */
  lemma RowFrame(db: Db, s: Step, k: string)
    requires Admissible(db, s) && !Enqueues(s) && k in db.jobs && k in Apply(db, s).jobs
    ensures SameIdentity(db.jobs[k], Apply(db, s).jobs[k])
    ensures Apply(db, s).jobs[k].family == db.jobs[k].family
  {
  }

  /** Coalescing only adds to the counts and never withdraws a rerun request. */
  lemma EnqueueGrows(db: Db, s: Step, k: string)
    requires Admissible(db, s) && Enqueues(s) && k in db.jobs
    ensures var r, r' := db.jobs[k], Apply(db, s).jobs[k];
            && k in Apply(db, s).jobs
            && SameIdentity(r, r') && r'.claimVersion == r.claimVersion
            && (r.family.rerunRequested ==> r'.family.rerunRequested)
            && CountsGrow(r.family, r'.family)
  {
    EnqueuedRow(db, s, k);
    if s.input.payload.SearchPayload? { CoalescingGrows(db.jobs[k], s.input); }
  }

  lemma EnqueuedRow(db: Db, s: Step, k: string)
    requires Admissible(db, s) && Enqueues(s) && k in db.jobs
    ensures k in Apply(db, s).jobs
    ensures Apply(db, s).jobs[k] == db.jobs[k]
            || (s.input.payload.SearchPayload? && Apply(db, s).jobs[k] == CoalesceInto(db.jobs[k], s.input))
  {
  }

  lemma CoalescingGrows(r: Row, i: EnqueueInput)
    requires i.payload.SearchPayload?
    ensures var r' := CoalesceInto(r, i);
            && SameIdentity(r, r') && r'.claimVersion == r.claimVersion
            && (r.family.rerunRequested ==> r'.family.rerunRequested)
            && CountsGrow(r.family, r'.family)
  {
  }

  lemma GrowthJoins(f: FamilyState, g: FamilyState, h: FamilyState)
    requires CountsGrow(f, g) && CountsGrow(g, h)
    ensures CountsGrow(f, h)
  {
  }

  /** Where a row comes from: it was there, it was enqueued, or it succeeds a completed row of its kind. */
  lemma RowOrigin(db: Db, s: Step, k: string)
    requires Admissible(db, s) && k in Apply(db, s).jobs
    ensures var r' := Apply(db, s).jobs[k];
            || (k in db.jobs && SameIdentity(db.jobs[k], r'))
            || (s.DoEnqueue? && r'.jobType == s.input.jobType && r'.concurrencyKey == s.input.concurrencyKey)
            || (s.DoComplete? && s.k in db.jobs && r'.jobType == db.jobs[s.k].jobType
                && r'.concurrencyKey == db.jobs[s.k].concurrencyKey)
  {
    if k in db.jobs {
      if Enqueues(s) { EnqueueGrows(db, s, k); } else { RowFrame(db, s, k); }
    }
  }

  lemma StepKeepsVersion(db: Db, s: Step, k: string)
    requires Admissible(db, s) && k in db.jobs && k in Apply(db, s).jobs
    ensures Apply(db, s).jobs[k].claimVersion >= db.jobs[k].claimVersion
  {
  }

  lemma StepGrows(db: Db, s: Step, k: string)
    requires Admissible(db, s) && k in db.jobs && k in Apply(db, s).jobs
    ensures CountsGrow(db.jobs[k].family, Apply(db, s).jobs[k].family)
  {
    if Enqueues(s) { EnqueueGrows(db, s, k); } else { RowFrame(db, s, k); }
  }

  lemma StepKeepsAsking(db: Db, s: Step, k: string, f: FamilyState, jobType: JobKind, familyKey: Option<string>)
    requires StoreInv(db) && Admissible(db, s) && StillAsks(db, k, f, jobType, familyKey)
    ensures StillAsks(Apply(db, s), k, f, jobType, familyKey)
  {
    var db' := Apply(db, s);
    if k in db.jobs {
      assert KeyInv(db, k);
      StepKeepsAttemptIds(db, s, AttemptId(k, 1));
      if k in db'.jobs {
        StepKeepsVersion(db, s, k);
        StepGrows(db, s, k);
        GrowthJoins(f, db.jobs[k].family, db'.jobs[k].family);
        if Enqueues(s) { EnqueueGrows(db, s, k); } else { RowFrame(db, s, k); }
      }
    } else {
      var v: nat :| AttemptId(k, v) in db.attempts;
      StepKeepsAttemptIds(db, s, AttemptId(k, v));
      NotFreshNotCreated(db, s, k);
    }
  }

  lemma NotFreshNotCreated(db: Db, s: Step, k: string)
    requires Admissible(db, s) && k !in db.jobs && !FreshKey(db, k)
    ensures k !in Apply(db, s).jobs
  {
  }

  lemma {:induction false} RunKeepsAsking(states: seq<Db>, steps: seq<Step>, m: nat, n: nat, k: string,
                                          f: FamilyState, jobType: JobKind, familyKey: Option<string>)
    requires IsRun(states, steps) && m <= n < |states|
    requires StillAsks(states[m], k, f, jobType, familyKey)
    ensures StillAsks(states[n], k, f, jobType, familyKey)
    decreases n
  {
    if m < n {
      RunKeepsAsking(states, steps, m, n - 1, k, f, jobType, familyKey);
      RunKeeps(states, steps, n - 1);
      StepKeepsAsking(states[n - 1], steps[n - 1], k, f, jobType, familyKey);
    }
  }

  /** No new-reason request is lost on success: once a running search row has counted a reason its claim had
      not seen, the completion that later succeeds, at whatever version and after whatever failures, reclaims
      and further coalescing, leaves one pending successor that carries every count. */
  lemma NewReasonReachesSuccessor(states: seq<Db>, steps: seq<Step>, m: nat, n: nat, k: string, version: nat)
    requires IsRun(states, steps) && m <= n < |steps|
    requires k in states[m].jobs && states[m].jobs[k].status.Running? && HasNewReason(states[m], k)
    requires states[m].jobs[k].jobType.SearchRebuild? && HasFamily(states[m].jobs[k].familyKey)
    requires steps[n].DoComplete? && TakesEffect(states[n], steps[n], k, version)
    ensures k in states[n].jobs && SoleSuccessor(states[n + 1], steps[n].successorKey, states[n].jobs[k])
    ensures CountsGrow(states[m].jobs[k].family, states[n + 1].jobs[steps[n].successorKey].family)
  {
    RunKeeps(states, steps, m);
    assert KeyInv(states[m], k);
    NewReasonRequestsRerun(states[m], k);
    var row := states[m].jobs[k];
    RunKeepsAsking(states, steps, m, n, k, row.family, row.jobType, row.familyKey);
    RunKeeps(states, steps, n);
    CompletionSuccessor(states[n], k, version, steps[n].nowMs, steps[n].successorKey);
  }
}
