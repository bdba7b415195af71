/** Claim transactions cut into their statements and interleaved: row locks, transaction-scoped
    advisory locks, counts of committed rows, and the commit that makes a claim visible. */
module SplitClaims {
  import opened JobTypes
  import opened StoreSpec
  import opened StoreInvariants
  import opened StoreTheorems
  import opened StoreRuns
  import opened ConcurrencyKeys
  import opened ClaimScan

  /** How far a transaction has got with its current candidate `k`. */
  datatype Phase =
    | Scanning
    | HoldsLock(k: string)     // the advisory lock of the candidate's key is held
    | UnderCap(k: string)      // the count for the key was below its cap
    | Passed(k: string)        // the derived global count, if any, was below its cap too

  /** Locks stay with the transaction until it ends, also for candidates it has given up on. */
  datatype Tx = Tx(phase: Phase, rows: set<string>, locks: set<string>)

  const NoTx := Tx(Scanning, {}, {})

  /** Committed tables, and one transaction per claiming worker. */
  datatype Sys = Sys(db: Db, txs: map<string, Tx>)

  datatype Event =
    | SelectBatch(w: string, batch: set<string>, nowMs: int)
    | TryLock(w: string, k: string)
    | CountKey(w: string)
    | CountGlobal(w: string)
    | Commit(w: string, input: ClaimInput)
    | EndTx(w: string)
    | Other(step: Step)

  predicate RowFree(s: Sys, w: string, k: string) {
    forall w' | w' in s.txs && w' != w :: k !in s.txs[w'].rows
  }

  predicate LockFree(s: Sys, w: string, concurrencyKey: string) {
    forall w' | w' in s.txs && w' != w :: concurrencyKey !in s.txs[w'].locks
  }

  /** An enqueue that coalesces waits for the row lock of a claimer. */
  ghost predicate Unblocked(s: Sys, step: Step) {
    && !step.DoClaim?
    && (step.DoEnqueue? && step.input.WellTyped() && Enqueue(s.db, step.input).1.Coalesced? ==>
          forall w | w in s.txs :: Enqueue(s.db, step.input).1.into !in s.txs[w].rows)
    && (step.DoCoalesce? ==> forall w | w in s.txs :: step.k !in s.txs[w].rows)
  }

  ghost predicate Enabled(s: Sys, e: Event) {
    if e.Other? then Admissible(s.db, e.step) && Unblocked(s, e.step)
    else
      && e.w in s.txs
      && match e
         case SelectBatch(w, batch, nowMs) =>
           && s.txs[w].phase.Scanning?
           && forall k | k in batch :: k in s.db.jobs && Ready(s.db.jobs[k], nowMs) && RowFree(s, w, k)
         case TryLock(w, k) =>
           s.txs[w].phase.Scanning? && k in s.txs[w].rows && k in s.db.jobs
         case CountKey(w) => s.txs[w].phase.HoldsLock? && s.txs[w].phase.k in s.db.jobs
         case CountGlobal(w) => s.txs[w].phase.UnderCap? && s.txs[w].phase.k in s.db.jobs
         case Commit(w, input) =>
           && s.txs[w].phase.Passed?
           && var k := s.txs[w].phase.k;
           k in s.db.jobs && s.db.jobs[k].status.Pending?
         case EndTx(w) => true
  }

  ghost function Next(s: Sys, policy: CapPolicy, e: Event): Sys
    requires Enabled(s, e)
  {
    match e
    case SelectBatch(w, batch, nowMs) =>
      s.(txs := s.txs[w := s.txs[w].(rows := s.txs[w].rows + batch)])
    case TryLock(w, k) =>
      var concurrencyKey := s.db.jobs[k].concurrencyKey;
      if LockFree(s, w, concurrencyKey)
      then s.(txs := s.txs[w := s.txs[w].(phase := HoldsLock(k), locks := s.txs[w].locks + {concurrencyKey})])
      else s
    case CountKey(w) =>
      var k := s.txs[w].phase.k;
      s.(txs := s.txs[w := s.txs[w].(
                 phase := if UnderKeyCap(s.db.jobs, policy, s.db.jobs[k]) then UnderCap(k) else Scanning)])
    case CountGlobal(w) =>
      var k := s.txs[w].phase.k;
      s.(txs := s.txs[w := s.txs[w].(
                 phase := if UnderGlobalCap(s.db.jobs, policy, s.db.jobs[k]) then Passed(k) else Scanning)])
    case Commit(w, input) =>
      Sys(ClaimRow(s.db, s.txs[w].phase.k, input).0, s.txs[w := NoTx])
    case EndTx(w) =>
      s.(txs := s.txs[w := NoTx])
    case Other(step) =>
      s.(db := Apply(s.db, step))
  }

  // ── the invariant ─────────────────────────────────────────────────

  ghost predicate LocksDisjoint(s: Sys) {
    forall w, w' | w in s.txs && w' in s.txs && w != w' ::
      s.txs[w].rows !! s.txs[w'].rows && s.txs[w].locks !! s.txs[w'].locks
  }

  /** Locked rows are pending, and the current candidate is locked together with its key. */
  ghost predicate TxAgrees(db: Db, t: Tx) {
    && (forall k :: k in t.rows ==> k in db.jobs && db.jobs[k].status.Pending?)
    && (!t.phase.Scanning? ==> t.phase.k in t.rows && db.jobs[t.phase.k].concurrencyKey in t.locks)
  }

  /** Transactions that have seen the count for the key below its cap and not yet ended. */
  ghost function Promised(s: Sys, concurrencyKey: string): set<string> {
    set w | w in s.txs && (s.txs[w].phase.UnderCap? || s.txs[w].phase.Passed?)
            && s.txs[w].phase.k in s.db.jobs && s.db.jobs[s.txs[w].phase.k].concurrencyKey == concurrencyKey
  }

  ghost function PromisedType(s: Sys, jobType: JobKind): set<string> {
    set w | w in s.txs && s.txs[w].phase.Passed?
            && s.txs[w].phase.k in s.db.jobs && s.db.jobs[s.txs[w].phase.k].jobType == jobType
  }

  function Max0(n: int): nat { if n < 0 then 0 else n }

  ghost predicate KeyCapHolds(s: Sys, policy: CapPolicy, concurrencyKey: string) {
    |RunningWithKey(s.db.jobs, concurrencyKey)| + |Promised(s, concurrencyKey)| <= Max0(policy.cap(concurrencyKey))
  }

  ghost predicate SysInv(s: Sys, policy: CapPolicy) {
    && StoreInv(s.db)
    && LocksDisjoint(s)
    && (forall w :: w in s.txs ==> TxAgrees(s.db, s.txs[w]))
    && forall c :: KeyCapHolds(s, policy, c)
  }

  // ── how the tables move ───────────────────────────────────────────

  /** Only a claim makes a row running; every other step leaves pending rows pending. */
  lemma OtherStepsOnlyStopJobs(db: Db, step: Step)
    requires StoreInv(db) && Admissible(db, step) && !step.DoClaim?
    ensures forall c :: RunningWithKey(Apply(db, step).jobs, c) <= RunningWithKey(db.jobs, c)
    ensures forall t :: RunningOfType(Apply(db, step).jobs, t) <= RunningOfType(db.jobs, t)
    ensures forall k :: k in db.jobs && db.jobs[k].status.Pending? ==>
              && k in Apply(db, step).jobs && Apply(db, step).jobs[k].status.Pending?
              && SameIdentity(db.jobs[k], Apply(db, step).jobs[k])
  {
    var db' := Apply(db, step);
    forall k | k in db'.jobs && db'.jobs[k].status.Running?
      ensures k in db.jobs && db.jobs[k].status.Running? && SameIdentity(db.jobs[k], db'.jobs[k])
    {
      RunningStays(db, step, k);
    }
    forall k | k in db.jobs && db.jobs[k].status.Pending?
      ensures && k in db'.jobs && db'.jobs[k].status.Pending? && SameIdentity(db.jobs[k], db'.jobs[k])
    {
      PendingStays(db, step, k);
    }
  }

  lemma RunningStays(db: Db, step: Step, k: string)
    requires StoreInv(db) && Admissible(db, step) && !step.DoClaim?
    requires k in Apply(db, step).jobs && Apply(db, step).jobs[k].status.Running?
    ensures k in db.jobs && db.jobs[k].status.Running? && SameIdentity(db.jobs[k], Apply(db, step).jobs[k])
  {
  }

  lemma PendingStays(db: Db, step: Step, k: string)
    requires StoreInv(db) && Admissible(db, step) && !step.DoClaim?
    requires k in db.jobs && db.jobs[k].status.Pending?
    ensures k in Apply(db, step).jobs && Apply(db, step).jobs[k].status.Pending?
    ensures SameIdentity(db.jobs[k], Apply(db, step).jobs[k])
  {
  }

  lemma ClaimAddsOne(db: Db, k: string, input: ClaimInput)
    requires StoreInv(db) && k in db.jobs && db.jobs[k].status.Pending?
    ensures var db' := ClaimRow(db, k, input).0;
            && (forall c :: RunningWithKey(db'.jobs, c)
                            == RunningWithKey(db.jobs, c) + if c == db.jobs[k].concurrencyKey then {k} else {})
            && (forall t :: RunningOfType(db'.jobs, t)
                            == RunningOfType(db.jobs, t) + if t == db.jobs[k].jobType then {k} else {})
            && (forall k' :: k' in db.jobs && k' != k ==> k' in db'.jobs && db'.jobs[k'] == db.jobs[k'])
  {
    ClaimKeeps(db, k, input);
  }

  // ── every event keeps it ──────────────────────────────────────────

  /** An event of one claimer that touches neither the tables nor other transactions' locks. */
  lemma TxStepKeeps(s: Sys, s': Sys, policy: CapPolicy, w: string)
    requires SysInv(s, policy) && w in s.txs
    requires s'.db == s.db && w in s'.txs && s'.txs == s.txs[w := s'.txs[w]]
    requires TxAgrees(s.db, s'.txs[w])
    requires forall w' | w' in s.txs && w' != w ::
               s'.txs[w].rows !! s.txs[w'].rows && s'.txs[w].locks !! s.txs[w'].locks
    requires !(s'.txs[w].phase.UnderCap? || s'.txs[w].phase.Passed?)
             || (s.txs[w].phase.UnderCap? && s'.txs[w].phase == Passed(s.txs[w].phase.k))
    ensures SysInv(s', policy)
  {
    forall c ensures KeyCapHolds(s', policy, c) {
      assert KeyCapHolds(s, policy, c);
      assert Promised(s', c) <= Promised(s, c);
      SubsetSize(Promised(s', c), Promised(s, c));
    }
  }

  lemma CountKeyKeeps(s: Sys, policy: CapPolicy, w: string)
    requires SysInv(s, policy) && Enabled(s, CountKey(w))
    ensures SysInv(Next(s, policy, CountKey(w)), policy)
  {
    var s' := Next(s, policy, CountKey(w));
    var k := s.txs[w].phase.k;
    if UnderKeyCap(s.db.jobs, policy, s.db.jobs[k]) {
      forall c ensures KeyCapHolds(s', policy, c) {
        assert KeyCapHolds(s, policy, c);
        CountKeyPromises(s, policy, w, c);
      }
    } else {
      TxStepKeeps(s, s', policy, w);
    }
  }

  /** Whoever has been promised this key holds its advisory lock, and that is the worker that counts. */
  lemma CountKeyPromises(s: Sys, policy: CapPolicy, w: string, c: string)
    requires SysInv(s, policy) && Enabled(s, CountKey(w)) && UnderKeyCap(s.db.jobs, policy, s.db.jobs[s.txs[w].phase.k])
    ensures Promised(Next(s, policy, CountKey(w)), c) ==
            if c == s.db.jobs[s.txs[w].phase.k].concurrencyKey then {w} else Promised(s, c)
    ensures c == s.db.jobs[s.txs[w].phase.k].concurrencyKey ==> Promised(s, c) == {}
  {
    if c == s.db.jobs[s.txs[w].phase.k].concurrencyKey {
      forall w' | w' in s.txs ensures w' !in Promised(s, c) {
        if w' != w { assert s.txs[w].locks !! s.txs[w'].locks; }
      }
      assert Promised(s, c) == {};
    }
  }

  /** A commit turns the promise of its transaction into a running row. */
  lemma CommitMovesPromise(s: Sys, policy: CapPolicy, w: string, input: ClaimInput, c: string)
    requires SysInv(s, policy) && Enabled(s, Commit(w, input))
    ensures var s' := Next(s, policy, Commit(w, input));
            |RunningWithKey(s'.db.jobs, c)| + |Promised(s', c)| <= |RunningWithKey(s.db.jobs, c)| + |Promised(s, c)|
  {
    var s' := Next(s, policy, Commit(w, input));
    var k := s.txs[w].phase.k;
    ClaimAddsOne(s.db, k, input);
    assert Promised(s', c) == Promised(s, c) - {w};
    if c == s.db.jobs[k].concurrencyKey {
      assert w in Promised(s, c);
    }
  }

  lemma CommitKeeps(s: Sys, policy: CapPolicy, w: string, input: ClaimInput)
    requires SysInv(s, policy) && Enabled(s, Commit(w, input))
    ensures SysInv(Next(s, policy, Commit(w, input)), policy)
  {
    var s' := Next(s, policy, Commit(w, input));
    var k := s.txs[w].phase.k;
    ClaimKeeps(s.db, k, input);
    ClaimAddsOne(s.db, k, input);
    forall w' | w' in s'.txs ensures TxAgrees(s'.db, s'.txs[w']) {
      assert w' != w ==> k !in s.txs[w'].rows;
    }
    forall c ensures KeyCapHolds(s', policy, c) {
      assert KeyCapHolds(s, policy, c);
      CommitMovesPromise(s, policy, w, input, c);
    }
  }

  lemma OtherKeeps(s: Sys, policy: CapPolicy, step: Step)
    requires SysInv(s, policy) && Enabled(s, Other(step))
    ensures SysInv(Next(s, policy, Other(step)), policy)
  {
    var s' := Next(s, policy, Other(step));
    StepKeeps(s.db, step);
    OtherStepsOnlyStopJobs(s.db, step);
    forall w | w in s'.txs ensures TxAgrees(s'.db, s'.txs[w]) {
      assert TxAgrees(s.db, s.txs[w]);
    }
    forall c ensures KeyCapHolds(s', policy, c) {
      assert KeyCapHolds(s, policy, c);
      forall w | w in Promised(s', c) ensures w in Promised(s, c) {
        assert TxAgrees(s.db, s.txs[w]);
      }
      SubsetSize(Promised(s', c), Promised(s, c));
      SubsetSize(RunningWithKey(s'.db.jobs, c), RunningWithKey(s.db.jobs, c));
    }
  }

  lemma EventKeeps(s: Sys, policy: CapPolicy, e: Event)
    requires SysInv(s, policy) && Enabled(s, e)
    ensures SysInv(Next(s, policy, e), policy)
  {
    match e
    case CountKey(w) => CountKeyKeeps(s, policy, w);
    case Commit(w, input) => CommitKeeps(s, policy, w, input);
    case Other(step) => OtherKeeps(s, policy, step);
    case _ => TxStepKeeps(s, Next(s, policy, e), policy, e.w);
  }

  // ── runs ──────────────────────────────────────────────────────────

  /** No claim is under way and no cap is exceeded. */
  ghost predicate Initial(s: Sys, policy: CapPolicy) {
    && StoreInv(s.db)
    && (forall w :: w in s.txs ==> s.txs[w] == NoTx)
    && forall c :: |RunningWithKey(s.db.jobs, c)| <= Max0(policy.cap(c))
  }

  ghost predicate IsSysRun(states: seq<Sys>, policy: CapPolicy, events: seq<Event>) {
    && |states| == |events| + 1
    && Initial(states[0], policy)
    && forall n :: 0 <= n < |events| ==> Enabled(states[n], events[n]) && states[n + 1] == Next(states[n], policy, events[n])
  }

  lemma {:induction false} SysRunKeeps(states: seq<Sys>, policy: CapPolicy, events: seq<Event>, n: nat)
    requires IsSysRun(states, policy, events) && n < |states|
    ensures SysInv(states[n], policy)
    ensures states[n].txs.Keys == states[0].txs.Keys
  {
    if n == 0 {
      forall c ensures KeyCapHolds(states[0], policy, c) {
        assert Promised(states[0], c) == {};
      }
    } else {
      SysRunKeeps(states, policy, events, n - 1);
      EventKeeps(states[n - 1], policy, events[n - 1]);
    }
  }

  /** Under every interleaving, the running jobs of a concurrency key never exceed its cap. */
  lemma KeyCapsHoldUnderInterleaving(states: seq<Sys>, policy: CapPolicy, events: seq<Event>, n: nat, concurrencyKey: string)
    requires IsSysRun(states, policy, events) && n < |states|
    ensures |RunningWithKey(states[n].db.jobs, concurrencyKey)| <= Max0(policy.cap(concurrencyKey))
  {
    SysRunKeeps(states, policy, events, n);
    assert KeyCapHolds(states[n], policy, concurrencyKey);
  }

  /** The pieces of a claim add up: what a commit publishes is one atomic claim step on the tables, of a row
      that is still pending and whose key still has room. */
  lemma CommitIsAtomicClaim(s: Sys, policy: CapPolicy, w: string, input: ClaimInput)
    requires SysInv(s, policy) && w in s.txs && s.txs[w].phase.Passed?
    ensures Enabled(s, Commit(w, input))
    ensures var k := s.txs[w].phase.k;
            && UnderKeyCap(s.db.jobs, policy, s.db.jobs[k])
            && ClaimRow(s.db, k, input).1.Claimed?
            && Next(s, policy, Commit(w, input)).db == ClaimRow(s.db, k, input).0
  {
    var k := s.txs[w].phase.k;
    assert TxAgrees(s.db, s.txs[w]);
    assert KeyCapHolds(s, policy, s.db.jobs[k].concurrencyKey);
    assert w in Promised(s, s.db.jobs[k].concurrencyKey);
    SubsetSize({w}, Promised(s, s.db.jobs[k].concurrencyKey));
    ClaimKeeps(s.db, k, input);
  }
}
