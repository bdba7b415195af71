/** Attempts beyond the limit: sweeps do not look at it, and there is a run for every number of them. */
module StoreOverruns {
  import opened JobTypes
  import opened StoreSpec
  import opened StoreInvariants
  import opened StoreTheorems
  import opened StoreRuns

  /** A waiting job with its numbers of attempts, retries and lost leases. */
  ghost predicate WaitsAfter(db: Db, k: string, maxAttempts: int, retried: nat, lost: nat) {
    && StoreInv(db) && k in db.jobs && db.jobs[k].status.Pending? && db.jobs[k].maxAttempts == maxAttempts
    && |AttemptsWith(db, k, RetryScheduled)| == retried && |AttemptsWith(db, k, LeaseLost)| == lost
  }

  /** A claim of no length, when the job is due. */
  function ClaimWhenDue(db: Db, k: string): Step
    requires k in db.jobs
  {
    DoClaim(k, ClaimInput("", db.jobs[k].nextAttemptAt, 0))
  }

  lemma ClaimCountsNothing(db: Db, k: string, maxAttempts: int, retried: nat, lost: nat)
    requires WaitsAfter(db, k, maxAttempts, retried, lost)
    ensures Admissible(db, ClaimWhenDue(db, k))
    ensures var db' := Apply(db, ClaimWhenDue(db, k));
            && StoreInv(db') && RunningAt(db', k, db.jobs[k].claimVersion + 1) && db'.jobs[k].maxAttempts == maxAttempts
            && db'.jobs[k].leaseExpiresAt == Some(db.jobs[k].nextAttemptAt)
            && AttemptsWith(db', k, RetryScheduled) == AttemptsWith(db, k, RetryScheduled)
            && AttemptsWith(db', k, LeaseLost) == AttemptsWith(db, k, LeaseLost)
            && db'.jobs[k].attemptCount == retried + lost + 1
  {
    AttemptCountExactly(db, k);
    ClaimKeeps(db, k, ClaimWhenDue(db, k).claim);
  }

  const NoDelay := FailInput(0, None, "", Some(0))

  /** Claimed and failed: one more retry, while attempts are left. */
  lemma RetryRound(db: Db, k: string, maxAttempts: int, retried: nat, lost: nat) returns (claim: Step, fail: Step)
    requires WaitsAfter(db, k, maxAttempts, retried, lost) && retried + lost + 1 < maxAttempts
    ensures Admissible(db, claim) && Admissible(Apply(db, claim), fail)
    ensures WaitsAfter(Apply(Apply(db, claim), fail), k, maxAttempts, retried + 1, lost)
  {
    var version := db.jobs[k].claimVersion + 1;
    claim, fail := ClaimWhenDue(db, k), DoFail(k, version, NoDelay);
    ClaimCountsNothing(db, k, maxAttempts, retried, lost);
    var running := Apply(db, claim);
    var db' := Apply(running, fail);
    StepKeeps(running, fail);
    OnlyOneRuns(running, k, version);
    RunningEnds(running, db', k, version, RetryScheduled);
  }

  /** Claimed and swept: one more lost lease, whatever the limit. */
  lemma SweepRound(db: Db, k: string, maxAttempts: int, retried: nat, lost: nat) returns (claim: Step, sweep: Step)
    requires WaitsAfter(db, k, maxAttempts, retried, lost)
    ensures Admissible(db, claim) && Admissible(Apply(db, claim), sweep)
    ensures WaitsAfter(Apply(Apply(db, claim), sweep), k, maxAttempts, retried, lost + 1)
  {
    var version := db.jobs[k].claimVersion + 1;
    claim, sweep := ClaimWhenDue(db, k), DoReclaim(db.jobs[k].nextAttemptAt + 1);
    ClaimCountsNothing(db, k, maxAttempts, retried, lost);
    var running := Apply(db, claim);
    var db' := Apply(running, sweep);
    StepKeeps(running, sweep);
    OnlyOneRuns(running, k, version);
    assert Swept(running, AttemptId(k, version), sweep.nowMs);
    RunningEnds(running, db', k, version, LeaseLost);
  }

  lemma OnlyOneRuns(db: Db, k: string, version: nat)
    requires StoreInv(db) && RunningAt(db, k, version)
    ensures InProgressAt(db.attempts, k, version)
    ensures forall v: nat :: InProgressAt(db.attempts, k, v) <==> v == version
  {
    LeaseAgreement(db, k, version);
  }

  lemma RunningEnds(db: Db, db': Db, k: string, version: nat, outcome: Outcome)
    requires !outcome.InProgress? && InProgressAt(db.attempts, k, version)
    requires db'.attempts.Keys == db.attempts.Keys && db'.attempts[AttemptId(k, version)].outcome == outcome
    requires forall id :: id in db.attempts && id.key == k && id.version != version ==> db'.attempts[id] == db.attempts[id]
    ensures |AttemptsWith(db', k, outcome)| == |AttemptsWith(db, k, outcome)| + 1
    ensures forall other: Outcome :: other != outcome && !other.InProgress? ==>
              AttemptsWith(db', k, other) == AttemptsWith(db, k, other)
  {
    var id := AttemptId(k, version);
    assert AttemptsWith(db', k, outcome) == AttemptsWith(db, k, outcome) + {id};
  }

  /** First the retries, then the lost leases. */
  lemma {:induction false} RunOfRounds(start: Db, k: string, maxAttempts: int, retries: nat, sweeps: nat)
    returns (states: seq<Db>, steps: seq<Step>)
    requires WaitsAfter(start, k, maxAttempts, 0, 0) && retries < maxAttempts
    ensures IsRun(states, steps) && states[0] == start && WaitsAfter(states[|steps|], k, maxAttempts, retries, sweeps)
    decreases retries + sweeps
  {
    var first, second;
    if sweeps > 0 {
      states, steps := RunOfRounds(start, k, maxAttempts, retries, sweeps - 1);
      first, second := SweepRound(states[|steps|], k, maxAttempts, retries, sweeps - 1);
    } else if retries > 0 {
      states, steps := RunOfRounds(start, k, maxAttempts, retries - 1, 0);
      first, second := RetryRound(states[|steps|], k, maxAttempts, retries - 1, 0);
    } else {
      return [start], [];
    }
    states, steps := ExtendRun(states, steps, first);
    states, steps := ExtendRun(states, steps, second);
  }

  /** For every limit m >= 1 and every L, some run of the store, begun empty, ends with the job running its attempt
      m + L: after m - 1 retries and L lost leases. */
  lemma AttemptsCanExceedLimit(i: EnqueueInput, lost: nat) returns (states: seq<Db>, steps: seq<Step>)
    requires i.WellTyped() && i.maxAttempts >= 1
    ensures IsRun(states, steps) && states[0] == Db(map[], map[])
    ensures var db := states[|steps|];
            && i.jobKey in db.jobs && db.jobs[i.jobKey].status.Running? && db.jobs[i.jobKey].maxAttempts == i.maxAttempts
            && db.jobs[i.jobKey].attemptCount == i.maxAttempts + lost
            && |AttemptsWith(db, i.jobKey, RetryScheduled)| == i.maxAttempts - 1
            && |AttemptsWith(db, i.jobKey, LeaseLost)| == lost
  {
    var k, empty := i.jobKey, Db(map[], map[]);
    EmptyStoreInv();
    states, steps := ExtendRun([empty], [], DoEnqueue(i));
    var created := Apply(empty, DoEnqueue(i));
    StepKeeps(empty, DoEnqueue(i));
    assert AttemptsWith(created, k, RetryScheduled) == {} && AttemptsWith(created, k, LeaseLost) == {};
    var later, rounds := RunOfRounds(created, k, i.maxAttempts, i.maxAttempts - 1, lost);
    states, steps := JoinRuns(states, steps, later, rounds, |rounds|);
    ClaimCountsNothing(states[|steps|], k, i.maxAttempts, i.maxAttempts - 1, lost);
    states, steps := ExtendRun(states, steps, ClaimWhenDue(states[|steps|], k));
  }

  lemma {:induction false} JoinRuns(s: seq<Db>, p: seq<Step>, t: seq<Db>, q: seq<Step>, n: nat)
    returns (states: seq<Db>, steps: seq<Step>)
    requires IsRun(s, p) && IsRun(t, q) && s[|p|] == t[0] && n <= |q|
    ensures IsRun(states, steps) && states[0] == s[0] && states[|steps|] == t[n]
  {
    if n == 0 {
      return s, p;
    }
    states, steps := JoinRuns(s, p, t, q, n - 1);
    states, steps := ExtendRun(states, steps, q[n - 1]);
  }
}
