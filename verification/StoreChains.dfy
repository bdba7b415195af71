/** Successor chains of search.rebuild families: bounded by the distinct reasons, and no
    trigger is ever counted twice or lost. */
module StoreChains {
  import opened JobTypes
  import opened MapSums
  import opened StoreSpec
  import opened StoreInvariants
  import opened StoreRuns

  /** Bookkeeping of a chain: the position of a row in it, and what the rows before it coalesced. */
  datatype Link = Link(number: nat, coalescedBefore: nat)

  /** A row created by an enqueue starts a chain; a successor extends the chain of the completed row. */
  ghost function NextChain(db: Db, chain: map<string, Link>, s: Step): map<string, Link>
    requires Admissible(db, s)
  {
    match s
    case DoEnqueue(i) =>
      if Enqueue(db, i).1.Created? then chain[i.jobKey := Link(0, 0)] else chain
    case DoComplete(k, v, t, successorKey) =>
      if RunningAt(db, k, v) && WantsSuccessor(db.jobs[k]) && k in chain then
        chain[successorKey := Link(chain[k].number + 1, chain[k].coalescedBefore + db.jobs[k].family.coalescedRequestCount)]
      else chain
    case _ => chain
  }

  predicate InChain(r: Row) {
    r.jobType.SearchRebuild? && HasFamily(r.familyKey)
  }

  ghost predicate LinkAgrees(r: Row, l: Link) {
    var requests := 1 + l.coalescedBefore + r.family.coalescedRequestCount;
    && Sum(r.family.reasonCounts) == requests
    && Sum(r.family.sourceCounts) == requests
    && l.number + (if r.family.rerunRequested then 1 else 0) < |r.family.reasonCounts|
  }

  ghost predicate ChainInv(db: Db, chain: map<string, Link>) {
    forall k :: k in db.jobs && InChain(db.jobs[k]) ==> k in chain && LinkAgrees(db.jobs[k], chain[k])
  }

  lemma InitialLink(p: Payload)
    requires p.SearchPayload?
    ensures var f := InitialFamilyState(p);
            Sum(f.reasonCounts) == 1 && Sum(f.sourceCounts) == 1 && |f.reasonCounts| == 1
  {
    SumSingleton(p.triggerReason, 1);
    SumSingleton(p.triggerSource, 1);
  }

  /** One more request: every counter grows by one in total, and a rerun request pays with a new reason. */
  lemma CoalescedLink(r: Row, i: EnqueueInput, l: Link)
    requires i.payload.SearchPayload? && CountsPositive(r.family) && LinkAgrees(r, l)
    ensures LinkAgrees(CoalesceInto(r, i), l)
  {
    var reasons, reason := r.family.reasonCounts, i.payload.triggerReason;
    SumUpdate(reasons, reason, Get(reasons, reason) + 1);
    SumUpdate(r.family.sourceCounts, i.payload.triggerSource, Get(r.family.sourceCounts, i.payload.triggerSource) + 1);
    if reason in reasons {
      assert Bump(reasons, reason).Keys == reasons.Keys;
      assert |Bump(reasons, reason)| == |Bump(reasons, reason).Keys| == |reasons|;
    } else {
      assert |Bump(reasons, reason)| == |reasons| + 1;
    }
  }

  lemma StepKeepsChain(db: Db, chain: map<string, Link>, s: Step)
    requires StoreInv(db) && Admissible(db, s) && ChainInv(db, chain)
    ensures ChainInv(Apply(db, s), NextChain(db, chain, s))
  {
    var db', chain' := Apply(db, s), NextChain(db, chain, s);
    forall k | k in db'.jobs && InChain(db'.jobs[k])
      ensures k in chain' && LinkAgrees(db'.jobs[k], chain'[k])
    {
      if s.DoEnqueue? {
        EnqueueKeepsChainAt(db, chain, s.input, k);
      } else if s.DoCoalesce? {
        CoalesceKeepsChainAt(db, chain, s, k);
      } else if k in db.jobs {
        assert SameIdentity(db.jobs[k], db'.jobs[k]) && db'.jobs[k].family == db.jobs[k].family by {
          RowFrame(db, s, k);
        }
        assert InChain(db.jobs[k]);
      } else {
        assert s.DoComplete? && k == s.successorKey;
        assert InChain(db.jobs[s.k]);
      }
    }
  }

  lemma EnqueueKeepsChainAt(db: Db, chain: map<string, Link>, i: EnqueueInput, k: string)
    requires StoreInv(db) && ChainInv(db, chain) && Admissible(db, DoEnqueue(i))
    requires k in Enqueue(db, i).0.jobs && InChain(Enqueue(db, i).0.jobs[k])
    ensures var chain' := NextChain(db, chain, DoEnqueue(i));
            k in chain' && LinkAgrees(Enqueue(db, i).0.jobs[k], chain'[k])
  {
    var (db', reply) := Enqueue(db, i);
    if reply.Created? && k == i.jobKey {
      InitialLink(i.payload);
    } else if reply.Coalesced? && k == reply.into {
      assert KeyInv(db, k);
      CoalescedLink(db.jobs[k], i, chain[k]);
    } else {
      assert k in db.jobs && db'.jobs[k] == db.jobs[k];
    }
  }

  lemma CoalesceKeepsChainAt(db: Db, chain: map<string, Link>, s: Step, k: string)
    requires StoreInv(db) && ChainInv(db, chain) && s.DoCoalesce? && Admissible(db, s)
    requires k in db.jobs && InChain(db.jobs[k])
    ensures k in chain && LinkAgrees(Apply(db, s).jobs[k], chain[k])
  {
    if k == s.k {
      assert KeyInv(db, k);
      CoalescedLink(db.jobs[k], s.input, chain[k]);
    }
  }

  ghost predicate IsChainRun(states: seq<Db>, steps: seq<Step>, chains: seq<map<string, Link>>) {
    && IsRun(states, steps)
    && |chains| == |states|
    && states[0] == Db(map[], map[])
    && forall n :: 0 <= n < |steps| ==> chains[n + 1] == NextChain(states[n], chains[n], steps[n])
  }

  /** In every state of every run, for every family row: both counters add up to all the requests the
      chain has absorbed, and the chain has had no more runs than there are distinct reasons. */
  lemma {:induction false} ChainsAreBounded(states: seq<Db>, steps: seq<Step>, chains: seq<map<string, Link>>, n: nat)
    requires IsChainRun(states, steps, chains) && n < |states|
    ensures ChainInv(states[n], chains[n])
    ensures forall k :: k in states[n].jobs && InChain(states[n].jobs[k]) ==>
              chains[n][k].number + 1 <= |states[n].jobs[k].family.reasonCounts|
  {
    if n > 0 {
      ChainsAreBounded(states, steps, chains, n - 1);
      RunKeeps(states, steps, n - 1);
      StepKeepsChain(states[n - 1], chains[n - 1], steps[n - 1]);
    }
  }
}
