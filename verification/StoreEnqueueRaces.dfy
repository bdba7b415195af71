/** The enqueue statement by statement: each statement reads what others have committed by then. */
module StoreEnqueueRaces {
  import opened JobTypes
  import opened StoreSpec
  import opened StoreInvariants
  import opened StoreTheorems
  import opened StoreRuns

  /** The tables each statement of one enqueue sees. A locking lookup picks rows from the tables as it starts
      and looks at them again once it holds their lock; the coalescing update works on that later row. */
  datatype Views = Views(lookup: Db, family: Db, familyLocked: Db, insert: Db,
                         again: Db, familyAgain: Db, familyAgainLocked: Db)

  /** Some run of other transactions leads from one to the other. */
  ghost predicate Later(db: Db, db': Db) {
    exists states: seq<Db>, steps: seq<Step> :: IsRun(states, steps) && states[0] == db && states[|steps|] == db'
  }

  ghost predicate InOrder(v: Views) {
    && Later(v.lookup, v.family) && Later(v.family, v.familyLocked) && Later(v.familyLocked, v.insert)
    && Later(v.insert, v.again) && Later(v.again, v.familyAgain) && Later(v.familyAgain, v.familyAgainLocked)
  }

  /** A row of the family that is active when a locking lookup starts and still is when its lock is taken. */
  predicate StaysActive(seen: Db, locked: Db, k: string, family: string) {
    ActiveInFamily(seen.jobs, k, family) && ActiveInFamily(locked.jobs, k, family)
  }

  ghost predicate FindsActive(seen: Db, locked: Db, family: string) {
    exists k :: StaysActive(seen, locked, k, family)
  }

  /** What an enqueue replies, the tables its write (or its last look) is based on, and the tables after it. */
  datatype Effect = Effect(at: Db, after: Db, reply: EnqueueReply)

  function Duplicated(db: Db, k: string): Effect
    requires k in db.jobs
  {
    Effect(db, db, Duplicate(db.jobs[k].status, db.jobs[k].claimVersion))
  }

  ghost function CoalescedInto(seen: Db, locked: Db, i: EnqueueInput): (r: Effect)
    requires i.WellTyped() && Coalescing(i) && FindsActive(seen, locked, i.familyKey.value)
    ensures r.reply.Coalesced? && StaysActive(seen, locked, r.reply.into, i.familyKey.value)
    ensures r == Effect(locked, Coalesce(locked, r.reply.into, i), r.reply)
  {
    var k :| StaysActive(seen, locked, k, i.familyKey.value);
    Effect(locked, Coalesce(locked, k, i), Coalesced(k))
  }

  ghost function EnqueueFamily(v: Views, i: EnqueueInput): Effect
    requires i.WellTyped() && Coalescing(i)
  {
    var family, row := i.familyKey.value, NewRow(i, InitialFamilyState(i.payload));
    if i.jobKey in v.lookup.jobs then Duplicated(v.lookup, i.jobKey)
    else if FindsActive(v.family, v.familyLocked, family) then CoalescedInto(v.family, v.familyLocked, i)
    else if CanInsert(v.insert.jobs, row) then
      Effect(v.insert, v.insert.(jobs := v.insert.jobs[i.jobKey := row]), Created(i.jobKey))
    else if i.jobKey in v.again.jobs then Duplicated(v.again, i.jobKey)
    else if FindsActive(v.familyAgain, v.familyAgainLocked, family) then CoalescedInto(v.familyAgain, v.familyAgainLocked, i)
    else Effect(v.familyAgainLocked, v.familyAgainLocked, EnqueueRaised)
  }

  /** Other kinds of jobs insert at once. If the row that was in the way is gone at the second look, the reply
      makes up a pending row. */
  ghost function EnqueueOther(v: Views, i: EnqueueInput): Effect
    requires i.WellTyped() && !Coalescing(i)
  {
    var row := NewRow(i, EmptyFamilyState);
    if i.jobKey in v.lookup.jobs then Duplicated(v.lookup, i.jobKey)
    else if i.jobKey in v.insert.jobs then
      if i.jobKey in v.again.jobs then Duplicated(v.again, i.jobKey) else Effect(v.again, v.again, Duplicate(Pending, 0))
    else if CanInsert(v.insert.jobs, row) then
      Effect(v.insert, v.insert.(jobs := v.insert.jobs[i.jobKey := row]), Created(i.jobKey))
    else Effect(v.insert, v.insert, EnqueueRaised)
  }

  ghost function EnqueueInSteps(v: Views, i: EnqueueInput): Effect
    requires i.WellTyped()
  {
    if Coalescing(i) then EnqueueFamily(v, i) else EnqueueOther(v, i)
  }

  // ── what runs preserve ────────────────────────────────────────────

  lemma LaterKeeps(db: Db, db': Db)
    requires Later(db, db')
    ensures StoreInv(db) && StoreInv(db')
  {
    var states: seq<Db>, steps: seq<Step> :| IsRun(states, steps) && states[0] == db && states[|steps|] == db';
    RunKeeps(states, steps, |steps|);
  }

  lemma LaterAfterStep(db: Db, s: Step)
    requires StoreInv(db) && Admissible(db, s)
    ensures Later(db, Apply(db, s))
  {
    assert IsRun([db, Apply(db, s)], [s]) && [db, Apply(db, s)][0] == db && [db, Apply(db, s)][|[s]|] == Apply(db, s);
  }

  lemma LaterSame(db: Db)
    requires StoreInv(db)
    ensures Later(db, db)
  {
    assert IsRun([db], []) && [db][0] == db;
  }

  lemma LaterThenStep(a: Db, b: Db, s: Step)
    requires Later(a, b) && Admissible(b, s)
    ensures Later(a, Apply(b, s))
  {
    var states: seq<Db>, steps: seq<Step> :| IsRun(states, steps) && states[0] == a && states[|steps|] == b;
    var _, _ := ExtendRun(states, steps, s);
  }

  lemma {:induction false} LaterThenRun(a: Db, states: seq<Db>, steps: seq<Step>, n: nat)
    requires IsRun(states, steps) && Later(a, states[0]) && n < |states|
    ensures Later(a, states[n])
  {
    if n > 0 {
      LaterThenRun(a, states, steps, n - 1);
      LaterThenStep(a, states[n - 1], steps[n - 1]);
    }
  }

  lemma LaterJoins(a: Db, b: Db, c: Db)
    requires Later(a, b) && Later(b, c)
    ensures Later(a, c)
  {
    var states: seq<Db>, steps: seq<Step> :| IsRun(states, steps) && states[0] == b && states[|steps|] == c;
    LaterThenRun(a, states, steps, |steps|);
  }

  /** Ended, and possibly deleted since: such a row is never active again. */
  ghost predicate Ended(db: Db, k: string) {
    if k in db.jobs then db.jobs[k].status.Terminal() else AttemptId(k, 1) in db.attempts
  }

  lemma StepKeepsEnded(db: Db, s: Step, k: string)
    requires StoreInv(db) && Admissible(db, s) && Ended(db, k)
    ensures Ended(Apply(db, s), k)
  {
    assert KeyInv(db, k);
    if k in db.jobs {
      assert AttemptId(k, 1) in db.attempts;
      StepKeepsTerminalRows(db, s, k);
    } else {
      NotFreshNotCreated(db, s, k);
    }
    if AttemptId(k, 1) in db.attempts { StepKeepsAttemptIds(db, s, AttemptId(k, 1)); }
  }

  lemma StepKeepsOrEnds(db: Db, s: Step, k: string, family: string)
    requires StoreInv(db) && Admissible(db, s) && ActiveInFamily(db.jobs, k, family)
    ensures ActiveInFamily(Apply(db, s).jobs, k, family) || Ended(Apply(db, s), k)
  {
    assert k in Apply(db, s).jobs;
    if Enqueues(s) { EnqueueGrows(db, s, k); } else { RowFrame(db, s, k); }
  }

  lemma {:induction false} RunKeepsOrEnds(states: seq<Db>, steps: seq<Step>, n: nat, k: string, family: string)
    requires IsRun(states, steps) && n < |states|
    requires ActiveInFamily(states[0].jobs, k, family) || Ended(states[0], k)
    ensures ActiveInFamily(states[n].jobs, k, family) || Ended(states[n], k)
    ensures Ended(states[0], k) ==> Ended(states[n], k)
  {
    if n > 0 {
      RunKeepsOrEnds(states, steps, n - 1, k, family);
      RunKeeps(states, steps, n - 1);
      if Ended(states[n - 1], k) {
        StepKeepsEnded(states[n - 1], steps[n - 1], k);
      } else {
        StepKeepsOrEnds(states[n - 1], steps[n - 1], k, family);
      }
    }
  }

  /** What is active early and late is active all the time. */
  lemma ActiveBetween(a: Db, b: Db, c: Db, k: string, family: string)
    requires Later(a, b) && Later(b, c)
    requires ActiveInFamily(a.jobs, k, family) && ActiveInFamily(c.jobs, k, family)
    ensures ActiveInFamily(b.jobs, k, family)
  {
    var s: seq<Db>, p: seq<Step> :| IsRun(s, p) && s[0] == a && s[|p|] == b;
    RunKeepsOrEnds(s, p, |p|, k, family);
    if !ActiveInFamily(b.jobs, k, family) {
      var t: seq<Db>, q: seq<Step> :| IsRun(t, q) && t[0] == b && t[|q|] == c;
      RunKeepsOrEnds(t, q, |q|, k, family);
    }
  }

  // ── every interleaving is covered by the runs ─────────────────────

  /** Whatever others commit between its statements, an enqueue writes nothing or is one step of the runs, taken
      on the tables its write is based on; so all that holds over runs holds with such enqueues in them. */
  lemma EnqueueInStepsIsAStep(v: Views, i: EnqueueInput)
    requires InOrder(v) && i.WellTyped() && (i.jobKey in v.insert.jobs || FreshKey(v.insert, i.jobKey))
    ensures var e := EnqueueInSteps(v, i);
            && StoreInv(e.at) && StoreInv(e.after)
            && match e.reply
               case Created(k) => Admissible(e.at, DoEnqueue(i)) && e.after == Apply(e.at, DoEnqueue(i))
               case Coalesced(k) => Admissible(e.at, DoCoalesce(k, i)) && e.after == Apply(e.at, DoCoalesce(k, i))
               case _ => e.after == e.at
  {
    LaterKeeps(v.lookup, v.family);
    LaterKeeps(v.familyLocked, v.insert);
    LaterKeeps(v.insert, v.again);
    LaterKeeps(v.familyAgain, v.familyAgainLocked);
    var e := EnqueueInSteps(v, i);
    if e.reply.Created? {
      assert Enqueue(e.at, i) == (e.after, e.reply);
      StepKeeps(e.at, DoEnqueue(i));
    } else if e.reply.Coalesced? {
      StepKeeps(e.at, DoCoalesce(e.reply.into, i));
    }
  }

  /** For a family enqueue the statements amount to one atomic enqueue on those tables, exactly unless it raises
      or it coalesces although its own key has been inserted meanwhile: then the request is counted a second
      time, where the atomic enqueue answers with a duplicate. */
  lemma RacingEnqueueIsAtomicExactly(v: Views, i: EnqueueInput)
    requires InOrder(v) && i.WellTyped() && Coalescing(i)
    ensures var e := EnqueueInSteps(v, i);
            (e.after, e.reply) == Enqueue(e.at, i)
            <==> !e.reply.EnqueueRaised? && (e.reply.Coalesced? ==> i.jobKey !in e.at.jobs)
  {
    LaterKeeps(v.family, v.familyLocked);
    LaterKeeps(v.familyAgain, v.familyAgainLocked);
    var e := EnqueueInSteps(v, i);
    if e.reply.Coalesced? {
      assert ActiveInFamily(e.at.jobs, e.reply.into, i.familyKey.value);
    }
  }

  /** With nothing committed in between, the statements are the atomic enqueue. */
  lemma UndisturbedEnqueueIsAtomic(db: Db, i: EnqueueInput)
    requires StoreInv(db) && i.WellTyped()
    ensures var e := EnqueueInSteps(Views(db, db, db, db, db, db, db), i);
            e.at == db && (e.after, e.reply) == Enqueue(db, i)
  {
    if Coalescing(i) {
      var family := i.familyKey.value;
      assert FindsActive(db, db, family) <==> HasActive(db.jobs, family) by {
        assert forall k :: StaysActive(db, db, k, family) <==> ActiveInFamily(db.jobs, k, family);
      }
    }
  }

  /** A second enqueue of the same key, overtaken by the first one between its two lookups, is counted as another
      request instead of being recognised as a duplicate. */
  lemma SameKeyCanCountTwice(before: Db, i: EnqueueInput) returns (v: Views)
    requires StoreInv(before) && i.WellTyped() && Coalescing(i)
    requires FreshKey(before, i.jobKey) && !HasActive(before.jobs, i.familyKey.value)
    ensures InOrder(v) && v.lookup == before && Enqueue(v.family, i).1 == Duplicate(Pending, 0)
    ensures var e := EnqueueInSteps(v, i);
            && e.reply == Coalesced(i.jobKey)
            && e.after.jobs[i.jobKey].family.coalescedRequestCount == 1
            && e.after.jobs[i.jobKey].family.reasonCounts == map[i.payload.triggerReason := 2]
  {
    var first := Apply(before, DoEnqueue(i));
    LaterAfterStep(before, DoEnqueue(i));
    StepKeeps(before, DoEnqueue(i));
    LaterSame(first);
    v := Views(before, first, first, first, first, first, first);
    assert StaysActive(first, first, i.jobKey, i.familyKey.value);
    forall k | StaysActive(first, first, k, i.familyKey.value) ensures k == i.jobKey { }
  }

  // ── when an enqueue raises ────────────────────────────────────────

  /** A family enqueue raises exactly when its key is absent at both looks, no row of the family is active both when
      a locking lookup starts and when it holds the lock, neither time, and yet the INSERT in between conflicts.
      Any other enqueue raises exactly when its new key meets an active family. */
  lemma RacingEnqueueRaisesExactly(v: Views, i: EnqueueInput)
    requires i.WellTyped()
    ensures EnqueueInSteps(v, i).reply.EnqueueRaised? <==>
            i.jobKey !in v.lookup.jobs
            && if Coalescing(i) then
              && (forall k :: ActiveInFamily(v.family.jobs, k, i.familyKey.value)
                              ==> !ActiveInFamily(v.familyLocked.jobs, k, i.familyKey.value))
              && (i.jobKey in v.insert.jobs || HasActive(v.insert.jobs, i.familyKey.value))
              && i.jobKey !in v.again.jobs
              && forall k :: ActiveInFamily(v.familyAgain.jobs, k, i.familyKey.value)
                             ==> !ActiveInFamily(v.familyAgainLocked.jobs, k, i.familyKey.value)
            else
              i.jobKey !in v.insert.jobs && i.familyKey.Some? && HasActive(v.insert.jobs, i.familyKey.value)
  {
    if Coalescing(i) {
      FindsActiveExactly(v.family, v.familyLocked, i.familyKey.value);
      FindsActiveExactly(v.familyAgain, v.familyAgainLocked, i.familyKey.value);
    }
  }

  lemma FindsActiveExactly(seen: Db, locked: Db, family: string)
    ensures !FindsActive(seen, locked, family) <==>
            forall k :: ActiveInFamily(seen.jobs, k, family) ==> !ActiveInFamily(locked.jobs, k, family)
  {
    assert forall k :: StaysActive(seen, locked, k, family) <==>
           ActiveInFamily(seen.jobs, k, family) && ActiveInFamily(locked.jobs, k, family);
  }

  /** A family enqueue raises only if the row in its way went away before it could look: its own key was deleted
      by retention, or the family's active row ended. */
  lemma RaisingNeedsAnEnding(v: Views, i: EnqueueInput)
    requires InOrder(v) && i.WellTyped() && Coalescing(i) && EnqueueInSteps(v, i).reply.EnqueueRaised?
    ensures (i.jobKey in v.insert.jobs && i.jobKey !in v.again.jobs)
            || exists k :: ActiveInFamily(v.insert.jobs, k, i.familyKey.value)
                           && !ActiveInFamily(v.familyAgainLocked.jobs, k, i.familyKey.value)
  {
    var family := i.familyKey.value;
    if i.jobKey !in v.insert.jobs {
      var k :| ActiveInFamily(v.insert.jobs, k, family);
      if ActiveInFamily(v.familyAgainLocked.jobs, k, family) {
        LaterJoins(v.insert, v.again, v.familyAgain);
        ActiveBetween(v.insert, v.familyAgain, v.familyAgainLocked, k, family);
        assert StaysActive(v.familyAgain, v.familyAgainLocked, k, family);
      }
    }
  }

  /** The row in the way completes while the second locking lookup waits for it: the enqueue raises, and it does so
      even when the completion leaves an active successor, which the lookup did not see. */
  lemma CompletionMakesEnqueueRaise(before: Db, db: Db, i: EnqueueInput, k: string, version: nat, nowMs: int, successorKey: string)
    returns (v: Views)
    requires i.WellTyped() && Coalescing(i) && Later(before, db)
    requires i.jobKey !in before.jobs && i.jobKey !in db.jobs && !HasActive(before.jobs, i.familyKey.value)
    requires RunningAt(db, k, version) && db.jobs[k].familyKey == i.familyKey && db.jobs[k].jobType.SearchRebuild?
    requires FreshKey(db, successorKey)
    ensures InOrder(v) && v.lookup == before && v.insert == db
    ensures v.familyAgainLocked == Apply(db, DoComplete(k, version, nowMs, successorKey))
    ensures EnqueueInSteps(v, i).reply.EnqueueRaised?
    ensures HasActive(v.familyAgainLocked.jobs, i.familyKey.value) <==> db.jobs[k].family.rerunRequested
  {
    LaterKeeps(before, db);
    var s := DoComplete(k, version, nowMs, successorKey);
    var db' := Apply(db, s);
    LaterAfterStep(db, s);
    LaterSame(before);
    LaterSame(db);
    v := Views(before, before, before, db, db, db, db');
    CompletionSuccessor(db, k, version, nowMs, successorKey);
    assert ActiveInFamily(db.jobs, k, i.familyKey.value);
    forall other ensures !StaysActive(db, db', other, i.familyKey.value) {
      if ActiveInFamily(db.jobs, other, i.familyKey.value) { assert other == k; }
    }
    if db.jobs[k].family.rerunRequested { assert ActiveInFamily(db'.jobs, successorKey, i.familyKey.value); }
  }

  /** Such a race exists for every table without an active row of the family: another enqueue wins the insert,
      is claimed and completes. */
  lemma EnqueueCanRaise(before: Db, winner: EnqueueInput, i: EnqueueInput, claim: ClaimInput, nowMs: int, successorKey: string)
    returns (v: Views)
    requires StoreInv(before) && i.WellTyped() && Coalescing(i) && winner.WellTyped() && Coalescing(winner)
    requires winner.familyKey == i.familyKey && !HasActive(before.jobs, i.familyKey.value)
    requires winner.jobKey != i.jobKey && successorKey != winner.jobKey && i.jobKey !in before.jobs
    requires FreshKey(before, winner.jobKey) && FreshKey(before, successorKey)
    requires claim.nowMs >= if winner.nextAttemptAt.Some? then winner.nextAttemptAt.value else winner.nowMs
    ensures InOrder(v) && v.lookup == before && EnqueueInSteps(v, i).reply.EnqueueRaised?
  {
    var k := winner.jobKey;
    var created := Apply(before, DoEnqueue(winner));
    LaterAfterStep(before, DoEnqueue(winner));
    StepKeeps(before, DoEnqueue(winner));
    ClaimKeeps(created, k, claim);
    var running := Apply(created, DoClaim(k, claim));
    LaterAfterStep(created, DoClaim(k, claim));
    LaterJoins(before, created, running);
    v := CompletionMakesEnqueueRaise(before, running, i, k, 1, nowMs, successorKey);
  }
}
