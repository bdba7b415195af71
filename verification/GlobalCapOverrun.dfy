/** Two concurrent claimers overrun the thinker cap: a concrete run, and with it the exact condition. */
module GlobalCapOverrun {
  import opened JobTypes
  import opened StoreSpec
  import opened StoreInvariants
  import opened ConcurrencyKeys
  import opened ClaimScan
  import opened SplitClaims
  import opened GlobalCap

  // ── the crowded table ─────────────────────────────────────────────

  function ThinkerRow(k: string): Row {
    Row(k, CognitionThinker, None, BackgroundCognitionThinker, THINKER_SESSION + k, Pending, 1, OtherPayload(""),
        EmptyFamilyState, 0, None, None, None, None, 0, 3, 0, None, None, None, 0, 0, None)
  }

  const FirstClaim := ClaimInput("", 0, 30_000)

  function RunningRow(k: string): Row {
    ClaimedRow(ThinkerRow(k), FirstClaim)
  }

  /** Thinker jobs, each in a session of its own: some are claimed, the others wait. */
  ghost predicate Crowded(db: Db, claimed: set<string>, waiting: set<string>) {
    && claimed !! waiting
    && db.jobs.Keys == claimed + waiting
    && (forall k :: k in claimed && k in db.jobs ==> db.jobs[k] == RunningRow(k))
    && (forall k :: k in waiting && k in db.jobs ==> db.jobs[k] == ThinkerRow(k))
    && (forall id :: id in db.attempts <==> id.key in claimed && id.version == 1)
    && (forall id :: id in db.attempts ==> db.attempts[id] == NewAttempt(RunningRow(id.key), FirstClaim))
  }

  lemma CrowdedExists(claimed: set<string>, waiting: set<string>) returns (db: Db)
    requires claimed !! waiting
    ensures Crowded(db, claimed, waiting)
  {
    db := Db(map k | k in claimed + waiting :: if k in claimed then RunningRow(k) else ThinkerRow(k),
             map id | id in (set k | k in claimed :: AttemptId(k, 1)) :: NewAttempt(RunningRow(id.key), FirstClaim));
  }

  /** As many keys as wanted. */
  lemma {:induction false} FreshKeys(n: nat) returns (keys: set<string>)
    ensures |keys| == n && forall k :: k in keys ==> |k| < n && (k == "" || k[0] == 'a')
  {
    if n == 0 {
      keys := {};
    } else {
      var fewer := FreshKeys(n - 1);
      var k := seq(n - 1, _ => 'a');
      assert k !in fewer;
      keys := fewer + {k};
    }
  }

  lemma CrowdedKeyInv(db: Db, claimed: set<string>, waiting: set<string>, k: string)
    requires Crowded(db, claimed, waiting)
    ensures KeyInv(db, k)
  {
    if k in claimed {
      assert AttemptId(k, 1) in db.attempts;
      assert db.jobs[k] == RunningRow(k);
    } else if k in waiting {
      assert db.jobs[k] == ThinkerRow(k);
    }
  }

  lemma CrowdedRunning(db: Db, claimed: set<string>, waiting: set<string>)
    requires Crowded(db, claimed, waiting)
    ensures RunningOfType(db.jobs, CognitionThinker) == claimed
  {
  }

  lemma SessionKeysDiffer(a: string, b: string)
    requires a != b
    ensures THINKER_SESSION + a != THINKER_SESSION + b
  {
    assert (THINKER_SESSION + a)[|THINKER_SESSION|..] == a;
    assert (THINKER_SESSION + b)[|THINKER_SESSION|..] == b;
  }

  lemma CrowdedSession(db: Db, claimed: set<string>, waiting: set<string>, c: string)
    requires Crowded(db, claimed, waiting)
    ensures var r := RunningWithKey(db.jobs, c);
            |r| <= 1 && forall k :: k in r ==> c == THINKER_SESSION + k && k in claimed
  {
    var r := RunningWithKey(db.jobs, c);
    if k :| k in r {
      forall k' | k' in r ensures k' == k {
        if k' != k { SessionKeysDiffer(k', k); }
      }
      assert r == {k};
    }
  }

  lemma SessionIsFree(db: Db, claimed: set<string>, waiting: set<string>, k: string)
    requires Crowded(db, claimed, waiting) && k in waiting
    ensures RunningWithKey(db.jobs, THINKER_SESSION + k) == {}
  {
    CrowdedSession(db, claimed, waiting, THINKER_SESSION + k);
    forall k' | k' in RunningWithKey(db.jobs, THINKER_SESSION + k) ensures false {
      SessionKeysDiffer(k', k);
    }
  }

  // ── the policy ────────────────────────────────────────────────────

  ghost predicate ThinkerPolicy(policy: CapPolicy, cap: int) {
    && policy.cap(THINKER_GLOBAL) == cap
    && forall k :: policy.cap(THINKER_SESSION + k) >= 1 && policy.globalKey(THINKER_SESSION + k) == Some(THINKER_GLOBAL)
  }

  const DEFAULT_THINKER_CAP := 4

  function ThinkerCap(configured: Option<int>): int {
    if configured.Some? then configured.value else DEFAULT_THINKER_CAP
  }

  lemma PgThinkerPolicy(configured: Option<int>)
    ensures ThinkerPolicy(PgPolicy(configured), ThinkerCap(configured))
  {
    forall k
      ensures ConcurrencyCap(configured, THINKER_SESSION + k) >= 1
      ensures DeriveGlobalConcurrencyKey(THINKER_SESSION + k) == Some(THINKER_GLOBAL)
    {
      ThinkerSessionCap(configured, k);
      ThinkerSessionGlobalKey(k);
    }
  }

  lemma CrowdedInvariant(db: Db, claimed: set<string>, waiting: set<string>)
    requires Crowded(db, claimed, waiting)
    ensures StoreInv(db)
  {
    forall k ensures KeyInv(db, k) { CrowdedKeyInv(db, claimed, waiting, k); }
  }

  lemma CrowdedInitial(s: Sys, claimed: set<string>, waiting: set<string>, policy: CapPolicy)
    requires Crowded(s.db, claimed, waiting) && forall k :: policy.cap(THINKER_SESSION + k) >= 1
    requires forall w :: w in s.txs ==> s.txs[w] == NoTx
    ensures Initial(s, policy)
  {
    CrowdedInvariant(s.db, claimed, waiting);
    forall c ensures |RunningWithKey(s.db.jobs, c)| <= Max0(policy.cap(c)) {
      CrowdedSession(s.db, claimed, waiting, c);
      if k :| k in RunningWithKey(s.db.jobs, c) {
        assert policy.cap(THINKER_SESSION + k) >= 1;
      }
    }
  }

  /** A thinker job waiting in its own session, with room under both caps. */
  ghost predicate Waiting(db: Db, policy: CapPolicy, k: string) {
    && k in db.jobs && Claimable(db.jobs, policy, {}, db.jobs[k])
    && db.jobs[k].jobType.CognitionThinker? && Ready(db.jobs[k], 0)
    && db.jobs[k].concurrencyKey == THINKER_SESSION + k
  }

  lemma CrowdedWaiting(db: Db, claimed: set<string>, waiting: set<string>, policy: CapPolicy, cap: int, k: string)
    requires cap >= 1 && ThinkerPolicy(policy, cap) && Crowded(db, claimed, waiting)
    requires |claimed| == cap - 1 && k in waiting
    ensures Waiting(db, policy, k)
  {
    SessionIsFree(db, claimed, waiting, k);
    CrowdedRunning(db, claimed, waiting);
    assert db.jobs[k] == ThinkerRow(k);
  }

  lemma CrowdedTyped(s: Sys, claimed: set<string>, waiting: set<string>, policy: CapPolicy, cap: int)
    requires cap >= 1 && ThinkerPolicy(policy, cap) && Crowded(s.db, claimed, waiting) && |claimed| == cap - 1
    requires Initial(s, policy)
    ensures IsTypedRun([s], policy, [], CognitionThinker, THINKER_GLOBAL)
  {
    CrowdedRunning(s.db, claimed, waiting);
    forall k | k in s.db.jobs ensures s.db.jobs[k].concurrencyKey == THINKER_SESSION + k {
      assert k in claimed || k in waiting;
    }
  }

  lemma CrowdedReaches(s: Sys, claimed: set<string>, waiting: set<string>, policy: CapPolicy, cap: int)
    requires cap >= 1 && ThinkerPolicy(policy, cap) && Crowded(s.db, claimed, waiting) && |claimed| == cap - 1
    requires forall w :: w in s.txs ==> s.txs[w] == NoTx
    ensures Reaches(s, policy, s)
  {
    CrowdedInitial(s, claimed, waiting, policy);
    CrowdedTyped(s, claimed, waiting, policy, cap);
    assert [s][0] == s;
  }

  lemma CrowdedStart(policy: CapPolicy, cap: int, workers: set<string>, claimed: set<string>, waiting: set<string>)
    returns (s: Sys)
    requires cap >= 1 && ThinkerPolicy(policy, cap) && |claimed| == cap - 1 && claimed !! waiting
    ensures s.txs.Keys == workers && Passing(s, s.db, {}) && Reaches(s, policy, s)
    ensures Crowded(s.db, claimed, waiting)
  {
    var db := CrowdedExists(claimed, waiting);
    s := Sys(db, map w | w in workers :: NoTx);
    CrowdedReaches(s, claimed, waiting, policy, cap);
  }

  // ── a run that overruns the cap ───────────────────────────────────

  /** Some run without calls from outside leads from one state to the other. */
  ghost predicate Reaches(start: Sys, policy: CapPolicy, s: Sys) {
    exists states: seq<Sys>, events: seq<Event> ::
      IsTypedRun(states, policy, events, CognitionThinker, THINKER_GLOBAL) && states[0] == start && states[|events|] == s
  }

  lemma ReachesNext(start: Sys, policy: CapPolicy, s: Sys, e: Event)
    requires Reaches(start, policy, s) && Enabled(s, e) && !e.Other?
    ensures Reaches(start, policy, Next(s, policy, e))
  {
    var states: seq<Sys>, events: seq<Event> :|
      IsTypedRun(states, policy, events, CognitionThinker, THINKER_GLOBAL) && states[0] == start && states[|events|] == s;
    var _, _ := AppendEvent(states, policy, events, e, CognitionThinker, THINKER_GLOBAL);
  }

  lemma ReachesKeeps(start: Sys, policy: CapPolicy, s: Sys)
    requires Reaches(start, policy, s)
    ensures StoreInv(s.db) && s.txs.Keys == start.txs.Keys
  {
    var states: seq<Sys>, events: seq<Event> :|
      IsTypedRun(states, policy, events, CognitionThinker, THINKER_GLOBAL) && states[0] == start && states[|events|] == s;
    SysRunKeeps(states, policy, events, |events|);
  }

  lemma AppendEvent(states: seq<Sys>, policy: CapPolicy, events: seq<Event>, e: Event, jobType: JobKind, globalKey: string)
    returns (states': seq<Sys>, events': seq<Event>)
    requires IsTypedRun(states, policy, events, jobType, globalKey)
    requires Enabled(states[|events|], e) && !e.Other?
    ensures IsTypedRun(states', policy, events', jobType, globalKey)
    ensures states'[0] == states[0] && states'[|events'|] == Next(states[|events|], policy, e)
  {
    states', events' := states + [Next(states[|events|], policy, e)], events + [e];
    forall n | 0 <= n < |events'|
      ensures Enabled(states'[n], events'[n]) && states'[n + 1] == Next(states'[n], policy, events'[n])
      ensures KeepsDeriving(policy, jobType, globalKey, events'[n])
    {
      if n < |events| { assert states'[n] == states[n] && states'[n + 1] == states[n + 1] && events'[n] == events[n]; }
    }
  }

  /** Selecting a free row and taking its free lock. */
  lemma SelectAndLock(s: Sys, policy: CapPolicy, w: string, k: string)
    requires w in s.txs && s.txs[w] == NoTx && k in s.db.jobs && Ready(s.db.jobs[k], 0)
    requires RowFree(s, w, k) && LockFree(s, w, s.db.jobs[k].concurrencyKey)
    ensures Enabled(s, SelectBatch(w, {k}, 0))
    ensures var s1 := Next(s, policy, SelectBatch(w, {k}, 0));
            && Enabled(s1, TryLock(w, k))
            && Next(s1, policy, TryLock(w, k)) == s.(txs := s.txs[w := Tx(HoldsLock(k), {k}, {s.db.jobs[k].concurrencyKey})])
  {
    var s1 := Next(s, policy, SelectBatch(w, {k}, 0));
    assert s.txs[w].rows + {k} == {k} && s.txs[w].locks + {s.db.jobs[k].concurrencyKey} == {s.db.jobs[k].concurrencyKey};
    assert s1.txs == s.txs[w := Tx(Scanning, {k}, {})];
    assert LockFree(s1, w, s.db.jobs[k].concurrencyKey);
    var locked := Tx(HoldsLock(k), {k}, {s.db.jobs[k].concurrencyKey});
    assert s1.txs[w := locked] == s.txs[w := locked];
  }

  lemma CheckBoth(s: Sys, policy: CapPolicy, w: string, k: string)
    requires w in s.txs && k in s.db.jobs && s.txs[w] == Tx(HoldsLock(k), {k}, {s.db.jobs[k].concurrencyKey})
    requires Claimable(s.db.jobs, policy, {}, s.db.jobs[k])
    ensures Enabled(s, CountKey(w))
    ensures var s1 := Next(s, policy, CountKey(w));
            && Enabled(s1, CountGlobal(w))
            && Next(s1, policy, CountGlobal(w)) == s.(txs := s.txs[w := Tx(Passed(k), {k}, {s.db.jobs[k].concurrencyKey})])
  {
  }

  lemma LockOne(start: Sys, policy: CapPolicy, s: Sys, w: string, k: string) returns (s': Sys)
    requires Reaches(start, policy, s) && w in s.txs && s.txs[w] == NoTx && k in s.db.jobs && Ready(s.db.jobs[k], 0)
    requires RowFree(s, w, k) && LockFree(s, w, s.db.jobs[k].concurrencyKey)
    ensures Reaches(start, policy, s')
    ensures s' == s.(txs := s.txs[w := Tx(HoldsLock(k), {k}, {s.db.jobs[k].concurrencyKey})])
  {
    SelectAndLock(s, policy, w, k);
    ReachesNext(start, policy, s, SelectBatch(w, {k}, 0));
    s' := Next(s, policy, SelectBatch(w, {k}, 0));
    ReachesNext(start, policy, s', TryLock(w, k));
    s' := Next(s', policy, TryLock(w, k));
  }

  lemma CheckOne(start: Sys, policy: CapPolicy, s: Sys, w: string, k: string) returns (s': Sys)
    requires Reaches(start, policy, s) && w in s.txs && k in s.db.jobs
    requires s.txs[w] == Tx(HoldsLock(k), {k}, {s.db.jobs[k].concurrencyKey}) && Claimable(s.db.jobs, policy, {}, s.db.jobs[k])
    ensures Reaches(start, policy, s')
    ensures s' == s.(txs := s.txs[w := Tx(Passed(k), {k}, {s.db.jobs[k].concurrencyKey})])
  {
    CheckBoth(s, policy, w, k);
    ReachesNext(start, policy, s, CountKey(w));
    s' := Next(s, policy, CountKey(w));
    ReachesNext(start, policy, s', CountGlobal(w));
    s' := Next(s', policy, CountGlobal(w));
  }

  /** The job each worker goes for. */
  function JobOf(w: string): string { "w" + w }

  lemma JobsDiffer(w: string, w': string)
    requires w != w'
    ensures JobOf(w) != JobOf(w') && THINKER_SESSION + JobOf(w) != THINKER_SESSION + JobOf(w')
  {
    assert JobOf(w)[1..] == w && JobOf(w')[1..] == w';
    SessionKeysDiffer(JobOf(w), JobOf(w'));
  }

  function PassedTx(w: string): Tx {
    Tx(Passed(JobOf(w)), {JobOf(w)}, {THINKER_SESSION + JobOf(w)})
  }

  /** The workers in `done` hold a pass for their jobs, the others have not begun; nothing is committed. */
  ghost predicate Passing(s: Sys, db: Db, done: set<string>) {
    s.db == db && forall w :: w in s.txs ==> s.txs[w] == if w in done then PassedTx(w) else NoTx
  }

  ghost predicate PassedBy(start: Sys, policy: CapPolicy, s: Sys, done: set<string>) {
    Reaches(start, policy, s) && s.txs.Keys == start.txs.Keys && Passing(s, start.db, done)
  }

  /** A claimer with nothing in its way reaches the point just before its commit, in four events. */
  lemma Pass(start: Sys, policy: CapPolicy, s: Sys, done: set<string>, w: string) returns (s': Sys)
    requires PassedBy(start, policy, s, done) && w in start.txs && w !in done && Waiting(start.db, policy, JobOf(w))
    ensures PassedBy(start, policy, s', done + {w})
  {
    NothingInTheWay(s, start.db, policy, done, w);
    var locked := LockOne(start, policy, s, w, JobOf(w));
    s' := CheckOne(start, policy, locked, w, JobOf(w));
  }

  lemma {:induction false} PassAll(start: Sys, policy: CapPolicy, done: set<string>) returns (s: Sys)
    requires PassedBy(start, policy, start, {}) && done <= start.txs.Keys
    requires forall w :: w in done ==> Waiting(start.db, policy, JobOf(w))
    ensures PassedBy(start, policy, s, done)
    decreases |done|
  {
    if done == {} {
      return start;
    }
    var w :| w in done;
    var rest := done - {w};
    s := PassAll(start, policy, rest);
    s := Pass(start, policy, s, rest, w);
    assert rest + {w} == done;
  }

  lemma NothingInTheWay(s: Sys, db: Db, policy: CapPolicy, done: set<string>, w: string)
    requires Passing(s, db, done) && w in s.txs && w !in done && Waiting(db, policy, JobOf(w))
    ensures RowFree(s, w, JobOf(w)) && LockFree(s, w, THINKER_SESSION + JobOf(w))
  {
    forall w' | w' in s.txs && w' != w
      ensures JobOf(w) !in s.txs[w'].rows && THINKER_SESSION + JobOf(w) !in s.txs[w'].locks
    {
      JobsDiffer(w, w');
    }
  }

  /** The workers in `done` have committed; the jobs of the others are still pending. */
  ghost predicate Committing(s: Sys, done: set<string>, before: nat) {
    && (forall w :: w in s.txs && w !in done ==>
          && s.txs[w].phase == Passed(JobOf(w)) && JobOf(w) in s.db.jobs
          && s.db.jobs[JobOf(w)].status.Pending? && s.db.jobs[JobOf(w)].jobType.CognitionThinker?)
    && |RunningOfType(s.db.jobs, CognitionThinker)| == before + |done|
  }

  lemma {:induction false} CommitAll(start: Sys, policy: CapPolicy, passed: Sys, done: set<string>, before: nat) returns (s: Sys)
    requires Reaches(start, policy, passed) && Committing(passed, {}, before) && done <= start.txs.Keys
    ensures Reaches(start, policy, s) && Committing(s, done, before)
    decreases |done|
  {
    if done == {} {
      return passed;
    }
    var w :| w in done;
    s := CommitAll(start, policy, passed, done - {w}, before);
    ReachesKeeps(start, policy, s);
    CommitOne(s, policy, done - {w}, w, before);
    ReachesNext(start, policy, s, Commit(w, FirstClaim));
    s := Next(s, policy, Commit(w, FirstClaim));
    assert done - {w} + {w} == done;
  }

  lemma CommitOne(s: Sys, policy: CapPolicy, done: set<string>, w: string, before: nat)
    requires StoreInv(s.db) && Committing(s, done, before) && w in s.txs && w !in done
    ensures Enabled(s, Commit(w, FirstClaim))
    ensures var s' := Next(s, policy, Commit(w, FirstClaim));
            s'.txs.Keys == s.txs.Keys && Committing(s', done + {w}, before)
  {
    var s' := Next(s, policy, Commit(w, FirstClaim));
    ClaimAddsOne(s.db, JobOf(w), FirstClaim);
    forall w' | w' in s.txs && w' !in done + {w} ensures s'.txs[w'] == s.txs[w'] && JobOf(w') != JobOf(w) {
      JobsDiffer(w, w');
    }
    assert JobOf(w) !in RunningOfType(s.db.jobs, CognitionThinker);
  }

  /** The bound is reached: for every cap and any number W of claimers some run ends with cap + W - 1 jobs
      running. All claimers pass the check before the first commits. */
  lemma ClaimersReachBound(policy: CapPolicy, cap: int, workers: set<string>)
    returns (states: seq<Sys>, events: seq<Event>)
    requires cap >= 1 && ThinkerPolicy(policy, cap)
    ensures IsTypedRun(states, policy, events, CognitionThinker, THINKER_GLOBAL)
    ensures states[0].txs.Keys == workers
    ensures |RunningOfType(states[|events|].db.jobs, CognitionThinker)| == cap + |workers| - 1
  {
    var claimed := FreshKeys(cap - 1);
    var waiting := set w | w in workers :: JobOf(w);
    forall k | k in claimed ensures k !in waiting {
      assert forall w :: JobOf(w)[0] == 'w';
    }
    var start := CrowdedStart(policy, cap, workers, claimed, waiting);
    CrowdedRunning(start.db, claimed, waiting);
    forall w | w in workers ensures Waiting(start.db, policy, JobOf(w)) {
      CrowdedWaiting(start.db, claimed, waiting, policy, cap, JobOf(w));
    }
    var s := PassAll(start, policy, workers);
    s := CommitAll(start, policy, s, workers, cap - 1);
    states, events :| IsTypedRun(states, policy, events, CognitionThinker, THINKER_GLOBAL)
                      && states[0] == start && states[|events|] == s;
  }

  /** The thinker cap is never exceeded, in any run, exactly when at most one worker claims
      (or the cap admits no job at all). */
  lemma GlobalCapHoldsExactlyWhenSerial(policy: CapPolicy, cap: int, workers: set<string>)
    requires ThinkerPolicy(policy, cap)
    ensures (forall states: seq<Sys>, events: seq<Event>, n: nat ::
               IsTypedRun(states, policy, events, CognitionThinker, THINKER_GLOBAL)
               && states[0].txs.Keys == workers && n < |states|
               ==> |RunningOfType(states[n].db.jobs, CognitionThinker)| <= Max0(cap))
            <==> |workers| <= 1 || cap <= 0
  {
    if |workers| <= 1 || cap <= 0 {
      forall states: seq<Sys>, events: seq<Event>, n: nat |
        IsTypedRun(states, policy, events, CognitionThinker, THINKER_GLOBAL)
        && states[0].txs.Keys == workers && n < |states|
        ensures |RunningOfType(states[n].db.jobs, CognitionThinker)| <= Max0(cap)
      {
        assert |states[0].txs| == |workers|;
        if cap <= 0 {
          NothingPasses(states, policy, events, n);
        } else {
          GlobalCapOverrunBound(states, policy, events, CognitionThinker, THINKER_GLOBAL, n);
        }
      }
    } else {
      var states, events := ClaimersReachBound(policy, cap, workers);
      assert |events| < |states|;
    }
  }

  /** For the store as it is configured, with the default cap 4 when it is not: no run with W claimers has more
      than cap + W - 1 thinker jobs running, and some run has as many. */
  lemma ThinkerOverrunExactly(configured: Option<int>, workers: set<string>)
    requires ThinkerCap(configured) >= 1 && workers != {}
    ensures forall states: seq<Sys>, events: seq<Event>, n: nat ::
              IsTypedRun(states, PgPolicy(configured), events, CognitionThinker, THINKER_GLOBAL)
              && states[0].txs.Keys == workers && n < |states|
              ==> |RunningOfType(states[n].db.jobs, CognitionThinker)| <= ThinkerCap(configured) + |workers| - 1
    ensures exists states: seq<Sys>, events: seq<Event> ::
              && IsTypedRun(states, PgPolicy(configured), events, CognitionThinker, THINKER_GLOBAL)
              && states[0].txs.Keys == workers
              && |RunningOfType(states[|events|].db.jobs, CognitionThinker)| == ThinkerCap(configured) + |workers| - 1
  {
    var policy := PgPolicy(configured);
    PgThinkerPolicy(configured);
    forall states: seq<Sys>, events: seq<Event>, n: nat |
      IsTypedRun(states, policy, events, CognitionThinker, THINKER_GLOBAL)
      && states[0].txs.Keys == workers && n < |states|
      ensures |RunningOfType(states[n].db.jobs, CognitionThinker)| <= ThinkerCap(configured) + |workers| - 1
    {
      assert |states[0].txs| == |workers|;
      GlobalCapOverrunBound(states, policy, events, CognitionThinker, THINKER_GLOBAL, n);
    }
    var states, events := ClaimersReachBound(policy, ThinkerCap(configured), workers);
  }

  lemma {:induction false} NothingPasses(states: seq<Sys>, policy: CapPolicy, events: seq<Event>, n: nat)
    requires IsTypedRun(states, policy, events, CognitionThinker, THINKER_GLOBAL) && n < |states|
    requires policy.cap(THINKER_GLOBAL) <= 0
    ensures RunningOfType(states[n].db.jobs, CognitionThinker) == {}
    ensures PromisedType(states[n], CognitionThinker) == {}
  {
    if n > 0 {
      NothingPasses(states, policy, events, n - 1);
      SysRunKeeps(states, policy, events, n - 1);
      GlobalCapOverrunBound(states, policy, events, CognitionThinker, THINKER_GLOBAL, n - 1);
      NothingPassesStep(states[n - 1], policy, events[n - 1]);
    }
  }

  lemma NothingPassesStep(s: Sys, policy: CapPolicy, e: Event)
    requires SysInv(s, policy) && Enabled(s, e) && AllDerive(s.db, policy, CognitionThinker, THINKER_GLOBAL)
    requires RunningOfType(s.db.jobs, CognitionThinker) == {} && PromisedType(s, CognitionThinker) == {}
    requires policy.cap(THINKER_GLOBAL) <= 0
    ensures RunningOfType(Next(s, policy, e).db.jobs, CognitionThinker) == {}
    ensures PromisedType(Next(s, policy, e), CognitionThinker) == {}
  {
    if e.Other? {
      OtherStepsOnlyStopJobs(s.db, e.step);
      forall w | w in PromisedType(Next(s, policy, e), CognitionThinker) ensures w in PromisedType(s, CognitionThinker) {
        assert TxAgrees(s.db, s.txs[w]);
      }
    } else if e.Commit? {
      CommitMovesType(s, policy, CognitionThinker, e.w, e.input);
    } else if e.CountGlobal? {
      NoPassWithoutCap(s, policy, e.w);
    } else {
      assert PromisedType(Next(s, policy, e), CognitionThinker) <= PromisedType(s, CognitionThinker);
    }
  }

  lemma NoPassWithoutCap(s: Sys, policy: CapPolicy, w: string)
    requires Enabled(s, CountGlobal(w)) && AllDerive(s.db, policy, CognitionThinker, THINKER_GLOBAL)
    requires policy.cap(THINKER_GLOBAL) <= 0
    ensures PromisedType(Next(s, policy, CountGlobal(w)), CognitionThinker) <= PromisedType(s, CognitionThinker)
  {
    assert s.db.jobs[s.txs[w].phase.k].jobType.CognitionThinker? ==>
        !UnderGlobalCap(s.db.jobs, policy, s.db.jobs[s.txs[w].phase.k]);
  }
}
