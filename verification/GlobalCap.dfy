/** The derived global cap is only checked under the per-session lock, so it is exact for a single
    claimer and can be overrun by concurrent ones, by at most one job for each further claimer. */
module GlobalCap {
  import opened JobTypes
  import opened StoreInvariants
  import opened StoreTheorems
  import opened StoreRuns
  import opened ConcurrencyKeys
  import opened ClaimScan
  import opened SplitClaims

  /** All jobs of the type derive the same global key. */
  ghost predicate AllDerive(db: Db, policy: CapPolicy, jobType: JobKind, globalKey: string) {
    forall k :: k in db.jobs && db.jobs[k].jobType == jobType
      ==> policy.globalKey(db.jobs[k].concurrencyKey) == Some(globalKey)
  }

  predicate KeepsDeriving(policy: CapPolicy, jobType: JobKind, globalKey: string, e: Event) {
    e.Other? && e.step.DoEnqueue? && e.step.input.jobType == jobType
    ==> policy.globalKey(e.step.input.concurrencyKey) == Some(globalKey)
  }

  /** The cap, plus one for each claimer after the first. */
  function Overrun(cap: int, workers: nat): nat {
    Max0(cap) + Max0(workers - 1)
  }

  ghost predicate GlobalInv(s: Sys, policy: CapPolicy, jobType: JobKind, globalKey: string) {
    && AllDerive(s.db, policy, jobType, globalKey)
    && |RunningOfType(s.db.jobs, jobType)| + |PromisedType(s, jobType)| <= Overrun(policy.cap(globalKey), |s.txs|)
  }

  lemma EventKeepsDeriving(s: Sys, policy: CapPolicy, jobType: JobKind, globalKey: string, e: Event)
    requires SysInv(s, policy) && Enabled(s, e)
    requires AllDerive(s.db, policy, jobType, globalKey) && KeepsDeriving(policy, jobType, globalKey, e)
    ensures AllDerive(Next(s, policy, e).db, policy, jobType, globalKey)
  {
    var db, db' := s.db, Next(s, policy, e).db;
    if e.Other? {
      forall k | k in db'.jobs && db'.jobs[k].jobType == jobType
        ensures policy.globalKey(db'.jobs[k].concurrencyKey) == Some(globalKey)
      {
        RowOrigin(db, e.step, k);
      }
    }
  }

  lemma PassingMovesPromise(s: Sys, policy: CapPolicy, jobType: JobKind, w: string)
    requires Enabled(s, CountGlobal(w))
    ensures var row := s.db.jobs[s.txs[w].phase.k];
            && w !in PromisedType(s, jobType)
            && PromisedType(Next(s, policy, CountGlobal(w)), jobType)
               == PromisedType(s, jobType)
                  + if UnderGlobalCap(s.db.jobs, policy, row) && row.jobType == jobType then {w} else {}
  {
  }

  lemma PassingKeeps(s: Sys, policy: CapPolicy, jobType: JobKind, globalKey: string, w: string)
    requires GlobalInv(s, policy, jobType, globalKey) && Enabled(s, CountGlobal(w))
    ensures GlobalInv(Next(s, policy, CountGlobal(w)), policy, jobType, globalKey)
  {
    var s' := Next(s, policy, CountGlobal(w));
    PassingMovesPromise(s, policy, jobType, w);
    assert s'.txs.Keys == s.txs.Keys;
    assert |s'.txs| == |s'.txs.Keys| == |s.txs.Keys| == |s.txs|;
    OthersPromised(s, jobType, w);
  }

  lemma OthersPromised(s: Sys, jobType: JobKind, w: string)
    requires w in s.txs && w !in PromisedType(s, jobType)
    ensures |PromisedType(s, jobType)| + 1 <= |s.txs|
  {
    SubsetSize(PromisedType(s, jobType) + {w}, s.txs.Keys);
  }

  lemma CommitMovesType(s: Sys, policy: CapPolicy, jobType: JobKind, w: string, input: ClaimInput)
    requires StoreInv(s.db) && Enabled(s, Commit(w, input))
    ensures var s' := Next(s, policy, Commit(w, input));
            var k := s.txs[w].phase.k;
            && (s.db.jobs[k].jobType == jobType ==> w in PromisedType(s, jobType))
            && PromisedType(s', jobType) == PromisedType(s, jobType) - {w}
            && RunningOfType(s'.db.jobs, jobType)
               == RunningOfType(s.db.jobs, jobType) + if s.db.jobs[k].jobType == jobType then {k} else {}
  {
    ClaimAddsOne(s.db, s.txs[w].phase.k, input);
    forall w' ensures w' in PromisedType(Next(s, policy, Commit(w, input)), jobType)
                      <==> w' in PromisedType(s, jobType) && w' != w
    {
    }
  }

  lemma CommitKeepsGlobal(s: Sys, policy: CapPolicy, jobType: JobKind, globalKey: string, w: string, input: ClaimInput)
    requires StoreInv(s.db) && GlobalInv(s, policy, jobType, globalKey) && Enabled(s, Commit(w, input))
    requires AllDerive(Next(s, policy, Commit(w, input)).db, policy, jobType, globalKey)
    ensures GlobalInv(Next(s, policy, Commit(w, input)), policy, jobType, globalKey)
  {
    var s' := Next(s, policy, Commit(w, input));
    CommitMovesType(s, policy, jobType, w, input);
    assert s'.txs.Keys == s.txs.Keys;
    assert |s'.txs| == |s'.txs.Keys| == |s.txs.Keys| == |s.txs|;
  }

  lemma OtherKeepsGlobal(s: Sys, policy: CapPolicy, jobType: JobKind, globalKey: string, step: Step)
    requires SysInv(s, policy) && GlobalInv(s, policy, jobType, globalKey) && Enabled(s, Other(step))
    requires AllDerive(Next(s, policy, Other(step)).db, policy, jobType, globalKey)
    ensures GlobalInv(Next(s, policy, Other(step)), policy, jobType, globalKey)
  {
    var s' := Next(s, policy, Other(step));
    OtherStepsOnlyStopJobs(s.db, step);
    forall w | w in PromisedType(s', jobType) ensures w in PromisedType(s, jobType) {
      assert TxAgrees(s.db, s.txs[w]);
    }
    SubsetSize(PromisedType(s', jobType), PromisedType(s, jobType));
    SubsetSize(RunningOfType(s'.db.jobs, jobType), RunningOfType(s.db.jobs, jobType));
  }

  /** Selecting, locking, counting for the key and giving up grant no pass and move no row. */
  lemma QuietKeepsGlobal(s: Sys, policy: CapPolicy, jobType: JobKind, globalKey: string, e: Event)
    requires GlobalInv(s, policy, jobType, globalKey) && Enabled(s, e)
    requires e.SelectBatch? || e.TryLock? || e.CountKey? || e.EndTx?
    ensures GlobalInv(Next(s, policy, e), policy, jobType, globalKey)
  {
    var s' := Next(s, policy, e);
    assert s'.txs.Keys == s.txs.Keys;
    assert |s'.txs| == |s'.txs.Keys| == |s.txs.Keys| == |s.txs|;
    assert PromisedType(s', jobType) <= PromisedType(s, jobType);
    SubsetSize(PromisedType(s', jobType), PromisedType(s, jobType));
  }

  lemma EventKeepsGlobal(s: Sys, policy: CapPolicy, jobType: JobKind, globalKey: string, e: Event)
    requires SysInv(s, policy) && Enabled(s, e)
    requires GlobalInv(s, policy, jobType, globalKey) && KeepsDeriving(policy, jobType, globalKey, e)
    ensures GlobalInv(Next(s, policy, e), policy, jobType, globalKey)
  {
    EventKeepsDeriving(s, policy, jobType, globalKey, e);
    match e
    case CountGlobal(w) => PassingKeeps(s, policy, jobType, globalKey, w);
    case Commit(w, input) => CommitKeepsGlobal(s, policy, jobType, globalKey, w, input);
    case Other(step) => OtherKeepsGlobal(s, policy, jobType, globalKey, step);
    case _ => QuietKeepsGlobal(s, policy, jobType, globalKey, e);
  }

  ghost predicate IsTypedRun(states: seq<Sys>, policy: CapPolicy, events: seq<Event>, jobType: JobKind, globalKey: string) {
    && IsSysRun(states, policy, events)
    && AllDerive(states[0].db, policy, jobType, globalKey)
    && |RunningOfType(states[0].db.jobs, jobType)| <= Max0(policy.cap(globalKey))
    && forall n :: 0 <= n < |events| ==> KeepsDeriving(policy, jobType, globalKey, events[n])
  }

  /** With W claimers, running jobs and granted passes together exceed the cap by at most W - 1. */
  lemma {:induction false} GlobalCapOverrunBound(states: seq<Sys>, policy: CapPolicy, events: seq<Event>,
                                                 jobType: JobKind, globalKey: string, n: nat)
    requires IsTypedRun(states, policy, events, jobType, globalKey) && n < |states|
    ensures GlobalInv(states[n], policy, jobType, globalKey)
    ensures |RunningOfType(states[n].db.jobs, jobType)| + |PromisedType(states[n], jobType)|
            <= Overrun(policy.cap(globalKey), |states[0].txs|)
  {
    SysRunKeeps(states, policy, events, n);
    assert |states[n].txs| == |states[n].txs.Keys| == |states[0].txs.Keys|;
    if n == 0 {
      assert PromisedType(states[0], jobType) == {};
    } else {
      SysRunKeeps(states, policy, events, n - 1);
      GlobalCapOverrunBound(states, policy, events, jobType, globalKey, n - 1);
      EventKeepsGlobal(states[n - 1], policy, jobType, globalKey, events[n - 1]);
    }
  }
}
