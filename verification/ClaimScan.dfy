/** The ordered, capped, batched scan by which a worker finds a job. */
module ClaimScan {
  import opened JobTypes
  import opened StoreSpec
  import opened StoreInvariants
  import opened StoreTheorems
  import opened StoreRuns
  import opened ConcurrencyKeys
  import opened Sorting

  const CLAIM_SCAN_BATCH_SIZE := 20

  // ── the query ─────────────────────────────────────────────────────

  /** The SQL CASE over execution classes; classes it does not name come last. */
  function ClassRank(c: ExecutionClass): nat {
    match c
    case InteractiveUserTurn => 1
    case InteractiveDelegatedTask => 2
    case BackgroundMemoryMigrate => 3
    case BackgroundMemoryOrganize => 4
    case BackgroundSearchRebuild => 4
    case BackgroundAutonomy => 5
    case _ => 9
  }

  predicate ClaimLeq(a: Row, b: Row) {
    var ra, rb := ClassRank(a.executionClass), ClassRank(b.executionClass);
    ra < rb || (ra == rb && a.nextAttemptAt <= b.nextAttemptAt)
  }

  lemma ClaimOrderIsTotal()
    ensures TotalPreorder(ClaimLeq)
  {
  }

  predicate Ready(row: Row, nowMs: int) {
    row.status.Pending? && row.nextAttemptAt <= nowMs
  }

  /** `scan` lists the rows in physical order, which decides between rows the query orders equally. */
  ghost predicate IsScan(jobs: map<string, Row>, scan: seq<string>) {
    NoDuplicates(scan) && forall k :: k in scan <==> k in jobs
  }

  /** WHERE and SKIP LOCKED: ready rows that no other transaction has locked. */
  function ReadyRows(jobs: map<string, Row>, scan: seq<string>, nowMs: int, locked: set<string>): seq<Row> {
    if scan == [] then []
    else
      (if scan[0] in jobs && Ready(jobs[scan[0]], nowMs) && scan[0] !in locked then [jobs[scan[0]]] else [])
      + ReadyRows(jobs, scan[1..], nowMs, locked)
  }

  function Candidates(jobs: map<string, Row>, scan: seq<string>, nowMs: int, locked: set<string>): seq<Row> {
    StableSort(ReadyRows(jobs, scan, nowMs, locked), ClaimLeq)
  }

  predicate IsCandidate(jobs: map<string, Row>, row: Row, nowMs: int, locked: set<string>) {
    row.jobKey in jobs && jobs[row.jobKey] == row && Ready(row, nowMs) && row.jobKey !in locked
  }

  ghost predicate KeysAgree(jobs: map<string, Row>) {
    forall k :: k in jobs ==> jobs[k].jobKey == k
  }

  lemma {:induction false} ReadyRowsExactly(jobs: map<string, Row>, scan: seq<string>, nowMs: int, locked: set<string>)
    requires KeysAgree(jobs) && NoDuplicates(scan)
    ensures forall row :: row in ReadyRows(jobs, scan, nowMs, locked) <==>
              IsCandidate(jobs, row, nowMs, locked) && row.jobKey in scan
    ensures NoDuplicates(ReadyRows(jobs, scan, nowMs, locked))
  {
    if scan != [] {
      ReadyRowsExactly(jobs, scan[1..], nowMs, locked);
      forall row
        ensures row in ReadyRows(jobs, scan, nowMs, locked) <==>
                IsCandidate(jobs, row, nowMs, locked) && row.jobKey in scan
      {
        assert row.jobKey in scan <==> row.jobKey == scan[0] || row.jobKey in scan[1..];
      }
      assert scan[0] !in scan[1..];
    }
  }

  /** The query returns every ready unlocked row exactly once, in claim order. */
  lemma CandidatesExactly(jobs: map<string, Row>, scan: seq<string>, nowMs: int, locked: set<string>)
    requires KeysAgree(jobs) && IsScan(jobs, scan)
    ensures var cands := Candidates(jobs, scan, nowMs, locked);
            && (forall row :: row in cands <==> IsCandidate(jobs, row, nowMs, locked))
            && NoDuplicates(cands)
            && Sorted(cands, ClaimLeq)
  {
    ReadyRowsExactly(jobs, scan, nowMs, locked);
    ClaimOrderIsTotal();
    SortSorted(ReadyRows(jobs, scan, nowMs, locked), ClaimLeq);
    SortKeepsDistinct(ReadyRows(jobs, scan, nowMs, locked), ClaimLeq);
  }

  // ── caps ──────────────────────────────────────────────────────────

  function RunningWithKey(jobs: map<string, Row>, concurrencyKey: string): set<string> {
    set k | k in jobs && jobs[k].concurrencyKey == concurrencyKey && jobs[k].status.Running?
  }

  function RunningOfType(jobs: map<string, Row>, jobType: JobKind): set<string> {
    set k | k in jobs && jobs[k].jobType == jobType && jobs[k].status.Running?
  }

  predicate UnderKeyCap(jobs: map<string, Row>, policy: CapPolicy, row: Row) {
    |RunningWithKey(jobs, row.concurrencyKey)| < policy.cap(row.concurrencyKey)
  }

  /** The derived global cap counts all running rows of the job's type, whatever their keys. */
  predicate UnderGlobalCap(jobs: map<string, Row>, policy: CapPolicy, row: Row) {
    var globalKey := policy.globalKey(row.concurrencyKey);
    globalKey.Some? ==> |RunningOfType(jobs, row.jobType)| < policy.cap(globalKey.value)
  }

  /** `busy` holds the concurrency keys whose advisory lock another transaction has. */
  predicate Claimable(jobs: map<string, Row>, policy: CapPolicy, busy: set<string>, row: Row) {
    row.concurrencyKey !in busy && UnderKeyCap(jobs, policy, row) && UnderGlobalCap(jobs, policy, row)
  }

  /** A row may be claimed exactly when nobody holds the lock of its key, fewer jobs run under its key than the cap of
      the key, and, if its key has a global one, fewer jobs of its type run than the cap of that. */
  lemma ClaimableExactly(jobs: map<string, Row>, policy: CapPolicy, busy: set<string>, row: Row)
    ensures var sameKey := set k | k in jobs && jobs[k].status == Running && jobs[k].concurrencyKey == row.concurrencyKey;
            var sameType := set k | k in jobs && jobs[k].status == Running && jobs[k].jobType == row.jobType;
            Claimable(jobs, policy, busy, row) <==>
              && row.concurrencyKey !in busy
              && |sameKey| < policy.cap(row.concurrencyKey)
              && (policy.globalKey(row.concurrencyKey).Some? ==>
                    |sameType| < policy.cap(policy.globalKey(row.concurrencyKey).value))
  {
    assert RunningWithKey(jobs, row.concurrencyKey)
           == set k | k in jobs && jobs[k].status == Running && jobs[k].concurrencyKey == row.concurrencyKey;
    assert RunningOfType(jobs, row.jobType) == set k | k in jobs && jobs[k].status == Running && jobs[k].jobType == row.jobType;
  }

  // ── the scan ──────────────────────────────────────────────────────

  function FirstClaimable(jobs: map<string, Row>, policy: CapPolicy, busy: set<string>, cands: seq<Row>): (i: nat)
    ensures i <= |cands|
    ensures forall j :: 0 <= j < i ==> !Claimable(jobs, policy, busy, cands[j])
    ensures i < |cands| ==> Claimable(jobs, policy, busy, cands[i])
  {
    if cands == [] || Claimable(jobs, policy, busy, cands[0]) then 0
    else 1 + FirstClaimable(jobs, policy, busy, cands[1..])
  }

  lemma FirstIsUnique(jobs: map<string, Row>, policy: CapPolicy, busy: set<string>, cands: seq<Row>, i: nat)
    requires i <= |cands|
    requires forall j :: 0 <= j < i ==> !Claimable(jobs, policy, busy, cands[j])
    requires i < |cands| ==> Claimable(jobs, policy, busy, cands[i])
    ensures i == FirstClaimable(jobs, policy, busy, cands)
  {
  }

  function ClaimNext(db: Db, policy: CapPolicy, input: ClaimInput,
                     scan: seq<string>, locked: set<string>, busy: set<string>): (Db, ClaimReply)
    requires KeysAgree(db.jobs) && IsScan(db.jobs, scan)
  {
    var cands := Candidates(db.jobs, scan, input.nowMs, locked);
    var i := FirstClaimable(db.jobs, policy, busy, cands);
    if i == |cands| then (db, NoneReady)
    else
      assert IsCandidate(db.jobs, cands[i], input.nowMs, locked) by {
        CandidatesExactly(db.jobs, scan, input.nowMs, locked);
        assert cands[i] in cands;
      }
      ClaimRow(db, cands[i].jobKey, input)
  }

  /** Walks the query result in slices of `batchSize`, as the OFFSET loop does. Where it stops does not
      depend on the slice size. */
  method ScanInBatches(jobs: map<string, Row>, policy: CapPolicy, busy: set<string>, cands: seq<Row>, batchSize: nat)
    returns (found: Option<Row>)
    requires batchSize > 0
    ensures var i := FirstClaimable(jobs, policy, busy, cands);
            found == if i == |cands| then None else Some(cands[i])
  {
    var offset := 0;
    while true
      invariant 0 <= offset <= |cands|
      invariant forall j :: 0 <= j < offset ==> !Claimable(jobs, policy, busy, cands[j])
      decreases |cands| - offset
    {
      var end := if offset + batchSize < |cands| then offset + batchSize else |cands|;
      var batch := cands[offset..end];
      if |batch| == 0 {
        FirstIsUnique(jobs, policy, busy, cands, offset);
        return None;
      }
      var n := 0;
      while n < |batch|
        invariant 0 <= n <= |batch|
        invariant forall j :: 0 <= j < offset + n ==> !Claimable(jobs, policy, busy, cands[j])
      {
        var candidate := batch[n];
        if candidate.concurrencyKey !in busy
           && |RunningWithKey(jobs, candidate.concurrencyKey)| < policy.cap(candidate.concurrencyKey)
        {
          var globalKey := policy.globalKey(candidate.concurrencyKey);
          if globalKey.None? || |RunningOfType(jobs, candidate.jobType)| < policy.cap(globalKey.value) {
            FirstIsUnique(jobs, policy, busy, cands, offset + n);
            return Some(candidate);
          }
        }
        n := n + 1;
      }
      offset := offset + |batch|;
    }
  }

  // ── what a claim returns ──────────────────────────────────────────

  /** A successful claim takes a ready row that passes both caps, and no claimable row precedes it. */
  lemma ClaimTakesFirst(db: Db, policy: CapPolicy, input: ClaimInput,
                        scan: seq<string>, locked: set<string>, busy: set<string>)
    requires KeysAgree(db.jobs) && IsScan(db.jobs, scan)
    requires ClaimNext(db, policy, input, scan, locked, busy).1.Claimed?
    ensures var k := ClaimNext(db, policy, input, scan, locked, busy).1.job.jobKey;
            && k in db.jobs && IsCandidate(db.jobs, db.jobs[k], input.nowMs, locked)
            && Claimable(db.jobs, policy, busy, db.jobs[k])
            && ClaimNext(db, policy, input, scan, locked, busy) == ClaimRow(db, k, input)
            && forall row :: IsCandidate(db.jobs, row, input.nowMs, locked) && Claimable(db.jobs, policy, busy, row)
                 ==> ClaimLeq(db.jobs[k], row)
  {
    CandidatesExactly(db.jobs, scan, input.nowMs, locked);
    var cands := Candidates(db.jobs, scan, input.nowMs, locked);
    var i := FirstClaimable(db.jobs, policy, busy, cands);
    assert cands[i] in cands;
    forall row | IsCandidate(db.jobs, row, input.nowMs, locked) && Claimable(db.jobs, policy, busy, row)
      ensures ClaimLeq(cands[i], row)
    {
      assert row in cands;
    }
  }

  /** The tiers in which classes are served, first to last; the last one is every class not named before. */
  ghost predicate SameTier(a: ExecutionClass, b: ExecutionClass) {
    var named := {InteractiveUserTurn, InteractiveDelegatedTask, BackgroundMemoryMigrate, BackgroundMemoryOrganize,
                  BackgroundSearchRebuild, BackgroundAutonomy};
    || a == b
    || {a, b} == {BackgroundMemoryOrganize, BackgroundSearchRebuild}
    || (a !in named && b !in named)
  }

  /** Who is served before whom: user turns, then delegated tasks, then memory migration, then memory
      organization and search rebuilds alike, then autonomy, then all the rest; within a tier, the job that has
      been due longest. */
  lemma ClaimServesInOrder(db: Db, policy: CapPolicy, input: ClaimInput,
                           scan: seq<string>, locked: set<string>, busy: set<string>, other: Row)
    requires KeysAgree(db.jobs) && IsScan(db.jobs, scan)
    requires ClaimNext(db, policy, input, scan, locked, busy).1.Claimed?
    requires IsCandidate(db.jobs, other, input.nowMs, locked) && Claimable(db.jobs, policy, busy, other)
    ensures ClaimNext(db, policy, input, scan, locked, busy).1.job.jobKey in db.jobs
    ensures var claimed := db.jobs[ClaimNext(db, policy, input, scan, locked, busy).1.job.jobKey];
            var c, o := claimed.executionClass, other.executionClass;
            && (o == InteractiveUserTurn ==> c == InteractiveUserTurn)
            && (o == InteractiveDelegatedTask ==> c in {InteractiveUserTurn, InteractiveDelegatedTask})
            && (o == BackgroundMemoryMigrate ==> c in {InteractiveUserTurn, InteractiveDelegatedTask, BackgroundMemoryMigrate})
            && (o in {BackgroundMemoryOrganize, BackgroundSearchRebuild} ==>
                  c in {InteractiveUserTurn, InteractiveDelegatedTask, BackgroundMemoryMigrate,
                        BackgroundMemoryOrganize, BackgroundSearchRebuild})
            && (o == BackgroundAutonomy ==>
                  c in {InteractiveUserTurn, InteractiveDelegatedTask, BackgroundMemoryMigrate,
                        BackgroundMemoryOrganize, BackgroundSearchRebuild, BackgroundAutonomy})
            && (SameTier(c, o) ==> claimed.nextAttemptAt <= other.nextAttemptAt)
  {
    ClaimTakesFirst(db, policy, input, scan, locked, busy);
    var claimed := db.jobs[ClaimNext(db, policy, input, scan, locked, busy).1.job.jobKey];
    assert ClaimLeq(claimed, other);
    if {claimed.executionClass, other.executionClass} == {BackgroundMemoryOrganize, BackgroundSearchRebuild} {
      assert claimed.executionClass in {BackgroundMemoryOrganize, BackgroundSearchRebuild};
      assert other.executionClass in {BackgroundMemoryOrganize, BackgroundSearchRebuild};
    }
  }

  /** Nothing is claimed exactly when every ready row is locked, busy or capped out. */
  lemma NoneReadyExactly(db: Db, policy: CapPolicy, input: ClaimInput,
                         scan: seq<string>, locked: set<string>, busy: set<string>)
    requires KeysAgree(db.jobs) && IsScan(db.jobs, scan)
    ensures ClaimNext(db, policy, input, scan, locked, busy).1.NoneReady? <==>
            forall row :: IsCandidate(db.jobs, row, input.nowMs, locked) ==> !Claimable(db.jobs, policy, busy, row)
  {
    CandidatesExactly(db.jobs, scan, input.nowMs, locked);
    var cands := Candidates(db.jobs, scan, input.nowMs, locked);
    var i := FirstClaimable(db.jobs, policy, busy, cands);
    if i < |cands| {
      assert cands[i] in cands;
    } else {
      forall row | IsCandidate(db.jobs, row, input.nowMs, locked) ensures !Claimable(db.jobs, policy, busy, row) {
        assert row in cands;
      }
    }
  }

  lemma InvariantKeysAgree(db: Db)
    requires StoreInv(db)
    ensures KeysAgree(db.jobs)
  {
    forall k | k in db.jobs ensures db.jobs[k].jobKey == k { assert KeyInv(db, k); }
  }

  /** In a consistent store a claim never raises, and it is a claim step of the runs or changes nothing. */
  lemma ClaimIsAStep(db: Db, policy: CapPolicy, input: ClaimInput,
                     scan: seq<string>, locked: set<string>, busy: set<string>)
    requires StoreInv(db) && IsScan(db.jobs, scan)
    ensures KeysAgree(db.jobs)
    ensures var (db', reply) := ClaimNext(db, policy, input, scan, locked, busy);
            || (reply.NoneReady? && db' == db)
            || (reply.Claimed? && Admissible(db, DoClaim(reply.job.jobKey, input))
                && db' == Apply(db, DoClaim(reply.job.jobKey, input)))
    ensures KeysAgree(ClaimNext(db, policy, input, scan, locked, busy).0.jobs)
  {
    InvariantKeysAgree(db);
    CandidatesExactly(db.jobs, scan, input.nowMs, locked);
    var cands := Candidates(db.jobs, scan, input.nowMs, locked);
    var i := FirstClaimable(db.jobs, policy, busy, cands);
    if i < |cands| {
      assert cands[i] in cands;
      ClaimKeeps(db, cands[i].jobKey, input);
    }
  }

  /** An unobstructed claim succeeds exactly when some ready row passes both caps: claims exhaust what the caps
      allow. */
  lemma UncontendedClaimExactly(db: Db, policy: CapPolicy, input: ClaimInput, scan: seq<string>)
    requires StoreInv(db) && IsScan(db.jobs, scan)
    ensures KeysAgree(db.jobs)
    ensures ClaimNext(db, policy, input, scan, {}, {}).1.Claimed? <==>
            exists k :: k in db.jobs && Ready(db.jobs[k], input.nowMs) && Claimable(db.jobs, policy, {}, db.jobs[k])
  {
    InvariantKeysAgree(db);
    NoneReadyExactly(db, policy, input, scan, {}, {});
    ClaimIsAStep(db, policy, input, scan, {}, {});
    assert forall k :: k in db.jobs && Ready(db.jobs[k], input.nowMs) ==> IsCandidate(db.jobs, db.jobs[k], input.nowMs, {});
  }

  // ── a row that cannot be claimed ──────────────────────────────────

  /** The claimable row every other claimable row comes strictly after. */
  ghost predicate StrictlyFirst(jobs: map<string, Row>, policy: CapPolicy, nowMs: int, locked: set<string>, busy: set<string>, k: string) {
    && k in jobs && IsCandidate(jobs, jobs[k], nowMs, locked) && Claimable(jobs, policy, busy, jobs[k])
    && forall row :: IsCandidate(jobs, row, nowMs, locked) && Claimable(jobs, policy, busy, row) && row != jobs[k]
                     ==> !ClaimLeq(row, jobs[k])
  }

  /** A scan stops at its first claimable row: when the history already holds the version that row would get, the
      whole claim raises and changes nothing, however many claimable rows stand behind it; otherwise it is claimed. */
  lemma FirstRowDecides(db: Db, policy: CapPolicy, input: ClaimInput,
                        scan: seq<string>, locked: set<string>, busy: set<string>, k: string)
    requires KeysAgree(db.jobs) && IsScan(db.jobs, scan)
    requires StrictlyFirst(db.jobs, policy, input.nowMs, locked, busy, k)
    ensures ClaimNext(db, policy, input, scan, locked, busy) == ClaimRow(db, k, input)
    ensures ClaimNext(db, policy, input, scan, locked, busy) == (db, ClaimRaised)
            <==> AttemptId(k, db.jobs[k].claimVersion + 1) in db.attempts
  {
    ClaimRaisesExactly(db, k, input);
    ScanStopsAtFirst(db.jobs, policy, input.nowMs, scan, locked, busy, k);
  }

  lemma ScanStopsAtFirst(jobs: map<string, Row>, policy: CapPolicy, nowMs: int,
                         scan: seq<string>, locked: set<string>, busy: set<string>, k: string)
    requires KeysAgree(jobs) && IsScan(jobs, scan) && StrictlyFirst(jobs, policy, nowMs, locked, busy, k)
    ensures var cands := Candidates(jobs, scan, nowMs, locked);
            var i := FirstClaimable(jobs, policy, busy, cands);
            i < |cands| && cands[i] == jobs[k]
  {
    CandidatesExactly(jobs, scan, nowMs, locked);
    var cands := Candidates(jobs, scan, nowMs, locked);
    var i := FirstClaimable(jobs, policy, busy, cands);
    var j :| 0 <= j < |cands| && cands[j] == jobs[k];
    assert i <= j && cands[i] in cands;
    SortedPlaces(cands, i, j);
  }

  lemma SortedPlaces(cands: seq<Row>, i: nat, j: nat)
    requires Sorted(cands, ClaimLeq) && i <= j < |cands| && (cands[i] != cands[j] ==> !ClaimLeq(cands[i], cands[j]))
    ensures cands[i] == cands[j]
  {
  }

  /** A key enqueued again after retention blocks the queue: while its row is first, every claim raises. */
  lemma ReusedKeyBlocksTheQueue(db: Db, doomed: set<string>, i: EnqueueInput, policy: CapPolicy, input: ClaimInput,
                                scan: seq<string>, locked: set<string>, busy: set<string>)
    requires StoreInv(db) && i.WellTyped() && i.jobKey in doomed
    requires i.jobKey in db.jobs && db.jobs[i.jobKey].status.Terminal()
    requires Enqueue(Cleanup(db, doomed), i).1 == Created(i.jobKey)
    ensures var again := Enqueue(Cleanup(db, doomed), i).0;
            && KeysAgree(again.jobs)
            && (IsScan(again.jobs, scan) && StrictlyFirst(again.jobs, policy, input.nowMs, locked, busy, i.jobKey) ==>
                  ClaimNext(again, policy, input, scan, locked, busy) == (again, ClaimRaised))
  {
    InvariantKeysAgree(db);
    ReusedKeyCannotBeClaimed(db, i.jobKey, doomed, i, input);
    var again := Enqueue(Cleanup(db, doomed), i).0;
    if IsScan(again.jobs, scan) && StrictlyFirst(again.jobs, policy, input.nowMs, locked, busy, i.jobKey) {
      FirstRowDecides(again, policy, input, scan, locked, busy, i.jobKey);
    }
  }
}
