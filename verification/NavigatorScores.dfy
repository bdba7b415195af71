/** What the navigator's scores prefer: edge kinds by intent, edges at a node, whole paths, and seeds. */
module NavigatorScores {
  import opened JobTypes
  import opened Sorting
  import opened EdgePriority
  import opened BeamSearch

  // ── edge kinds ────────────────────────────────────────────────────

  /** The kinds score 1, 1 - 1/n, 1 - 2/n, … in this order. */
  ghost predicate ScoresDown(kinds: seq<EdgeKind>, score: EdgeKind -> real) {
    forall i :: 0 <= i < |kinds| ==> score(kinds[i]) == 1.0 - (i as real) / (|kinds| as real)
  }

  lemma ListScoresDown(ordered: seq<EdgeKind>)
    requires NoDuplicates(ordered)
    ensures ScoresDown(ordered, kind => ScoreIn(kind, ordered))
  {
    forall i | 0 <= i < |ordered| ensures IndexIn(ordered[i], ordered) == i { }
  }

  /** Which edges each intent follows first. */
  lemma IntentsPrefer(q: QueryType)
    ensures q == EntityQuery ==> ScoresDown([FactRelation, Participant, FactSupport, SemanticSimilar], PriorityFor(q, []))
    ensures q == EventQuery ==> ScoresDown([SameEpisode, TemporalPrev, TemporalNext, Causal, FactSupport], PriorityFor(q, []))
    ensures q == WhyQuery ==> ScoresDown([Causal, FactSupport, FactRelation, TemporalPrev], PriorityFor(q, []))
    ensures q == RelationshipQuery ==> ScoresDown([FactRelation, FactSupport, Participant, SemanticSimilar], PriorityFor(q, []))
    ensures q == TimelineQuery ==> ScoresDown([TemporalPrev, TemporalNext, SameEpisode, Causal, FactSupport], PriorityFor(q, []))
    ensures q == StateQuery ==> ScoresDown([FactRelation, ConflictOrUpdate, FactSupport, TemporalNext], PriorityFor(q, []))
    ensures q == ConflictQuery ==>
              ScoresDown([ConflictOrUpdate, FactRelation, FactSupport, Causal, TemporalPrev], PriorityFor(q, []))
  {
    PriorityTableIsGood();
    ListScoresDown(QueryTypePriority(q));
    var ordered := QueryTypePriority(q);
    assert forall kind :: PriorityFor(q, [])(kind) == ScoreIn(kind, ordered);
    assert ScoresDown(ordered, PriorityFor(q, []));
  }

  /** A kind no list names scores 0.3 if it is one of the nine memory relations and 0.1 otherwise. */
  lemma UnnamedKinds(q: QueryType, secondaries: seq<QueryType>, kind: EdgeKind)
    requires kind !in (if secondaries == [] then QueryTypePriority(q) else Merged(QueryTypePriority, q, secondaries))
    ensures EdgePriorityScore(kind, q, secondaries) ==
            if kind in {Supports, Triggered, ConflictsWith, DerivedFrom, Supersedes, SurfacedAs, PublishedAs, ResolvedBy,
                        DowngradedBy} then 0.3 else 0.1
  {
  }

  // ── edges at a node ───────────────────────────────────────────────

  /** Weights: what neither strategy nor plan names is neutral, and a plan multiplies what the strategy says. */
  lemma PlansMultiply(kind: EdgeKind, strategy: map<EdgeKind, real>, plan: map<EdgeKind, real>)
    ensures kind !in strategy ==> EffectiveEdgeMultiplier(kind, Weights(strategy, None)) == 1.0
    ensures kind in strategy ==> EffectiveEdgeMultiplier(kind, Weights(strategy, None)) == strategy[kind]
    ensures kind !in plan ==>
              EffectiveEdgeMultiplier(kind, Weights(strategy, Some(plan))) == EffectiveEdgeMultiplier(kind, Weights(strategy, None))
    ensures kind in plan ==>
              EffectiveEdgeMultiplier(kind, Weights(strategy, Some(plan)))
              == EffectiveEdgeMultiplier(kind, Weights(strategy, None)) * plan[kind]
  {
  }

  /** Neighbours are compared by the priorities of the intents. */
  lemma NeighborsPreferred(a: Edge, b: Edge, q: QueryType, secondaries: seq<QueryType>, w: Weights)
    ensures var score := PriorityFor(q, secondaries);
            CompareNeighborEdges(a, b, q, secondaries, w) < 0.0
            <==> Preferred(score(a.kind), score(b.kind),
                           a.weight * EffectiveEdgeMultiplier(a.kind, w), b.weight * EffectiveEdgeMultiplier(b.kind, w),
                           if a.timestamp.Some? then a.timestamp.value else 0.0, if b.timestamp.Some? then b.timestamp.value else 0.0)
  {
    EdgesPreferred(PriorityFor(q, secondaries), w, a, b);
  }

  // ── whole paths ───────────────────────────────────────────────────

  /** The edge scores of a path added up from its first edge on. */
  function EdgesTotal(edges: seq<Edge>, score: Edge -> real): real {
    if edges == [] then 0.0 else score(edges[0]) + EdgesTotal(edges[1..], score)
  }

  lemma {:induction false} TotalsAgree(edges: seq<Edge>, more: seq<Edge>, score: Edge -> real)
    ensures EdgesTotal(edges + more, score) == EdgesTotal(edges, score) + EdgesTotal(more, score)
  {
    if edges == [] {
      assert edges + more == more;
    } else {
      assert (edges + more)[1..] == edges[1..] + more;
      TotalsAgree(edges[1..], more, score);
    }
  }

  lemma {:induction false} SumIsTotal(edges: seq<Edge>, score: Edge -> real)
    ensures EdgeScoreSum(edges, score) == EdgesTotal(edges, score)
  {
    if edges != [] {
      var n := |edges| - 1;
      SumIsTotal(edges[..n], score);
      TotalsAgree(edges[..n], [edges[n]], score);
      assert edges == edges[..n] + [edges[n]];
      assert [edges[n]][1..] == [];
    }
  }

  /** A path scores 0.55 of its seed's score and 0.45 of its mean edge score, less 0.05 for each hop; a seed nobody
      scored counts zero, and so do the edges of a path without any. */
  lemma PathScoreExactly(p: Path, seedScores: map<string, real>, q: QueryType, secondaries: seq<QueryType>, w: Weights)
    ensures var n := |p.internalEdges|;
            var total := EdgesTotal(p.internalEdges, WeightedScore(q, secondaries, w));
            var seed := if p.seed in seedScores then seedScores[p.seed] else 0.0;
            PreliminaryPathScore(p, seedScores, q, secondaries, w)
            == 0.55 * seed + 0.45 * (if n == 0 then 0.0 else total / (n as real)) - 0.05 * (p.depth as real)
  {
    SumIsTotal(p.internalEdges, WeightedScore(q, secondaries, w));
  }

  // ── seeds and layers ──────────────────────────────────────────────

  /** The first layer starts from the best scored seeds: none that is left out scores higher than one that is taken, and
      seeds are left out only when the width is used up. */
  lemma BestSeedsAreTaken(s: Search, seeds: seq<Seed>, width: nat, taken: Seed, left: Seed)
    requires StartPath(taken) in SeedLayer(s, seeds, width) && left in seeds && StartPath(left) !in SeedLayer(s, seeds, width)
    ensures s.seedScore(taken) >= s.seedScore(left) && |SeedLayer(s, seeds, width)| == width
  {
    var leq := (a: Seed, b: Seed) => SeedLeq(s, a, b);
    var sorted := StableSort(seeds, leq);
    SeedOrderIsTotal(s);
    SortSorted(seeds, leq);
    var layer := SeedLayer(s, seeds, width);
    var i :| 0 <= i < |layer| && layer[i] == StartPath(taken);
    assert StartPath(sorted[i]).origin == StartPath(taken).origin;
    var j :| 0 <= j < |sorted| && sorted[j] == left;
    assert forall n :: 0 <= n < |layer| ==> layer[n] == StartPath(sorted[n]) && layer[n] in layer;
    assert j >= |layer|;
    assert leq(sorted[i], sorted[j]);
  }

  lemma SeedOrderIsTotal(s: Search)
    ensures TotalPreorder((a: Seed, b: Seed) => SeedLeq(s, a, b))
  {
  }

  /** Seeds and paths of a layer come best first. */
  lemma LayersAreRanked(s: Search, seeds: seq<Seed>, layer: seq<Path>, width: nat, i: nat, j: nat)
    requires NonEmpty(layer) && i < j
    ensures j < |SeedLayer(s, seeds, width)| ==>
              s.seedScore(SeedLayer(s, seeds, width)[i].origin) >= s.seedScore(SeedLayer(s, seeds, width)[j].origin)
    ensures j < |NextLayer(s, layer, width)| ==>
              s.pathScore(NextLayer(s, layer, width)[i]) >= s.pathScore(NextLayer(s, layer, width)[j])
  {
    if j < |SeedLayer(s, seeds, width)| {
      var leq := (a: Seed, b: Seed) => SeedLeq(s, a, b);
      SeedOrderIsTotal(s);
      SortSorted(seeds, leq);
      assert leq(StableSort(seeds, leq)[i], StableSort(seeds, leq)[j]);
    }
    if j < |NextLayer(s, layer, width)| {
      var leq := (a: Path, b: Path) => PathLeq(s, a, b);
      SortSorted(Unique(s, layer), leq);
      assert leq(StableSort(Unique(s, layer), leq)[i], StableSort(Unique(s, layer), leq)[j]);
    }
  }

  /** The navigator drops the worst scored seeds: a seed without a score counts zero. */
  lemma NavigatorTakesBestSeeds(graph: Graph, seedScores: map<string, real>, q: QueryType, secondaries: seq<QueryType>,
                                w: Weights, seeds: seq<Seed>, beamWidth: real, multiplier: real, taken: Seed, left: Seed)
    requires var s, width := NavigatorSearch(graph, seedScores, q, secondaries, w), EffectiveBeamWidth(beamWidth, multiplier);
             && StartPath(taken) in SeedLayer(s, seeds, width)
             && left in seeds && StartPath(left) !in SeedLayer(s, seeds, width)
    ensures (if taken.nodeRef in seedScores then seedScores[taken.nodeRef] else 0.0)
            >= (if left.nodeRef in seedScores then seedScores[left.nodeRef] else 0.0)
  {
    BestSeedsAreTaken(NavigatorSearch(graph, seedScores, q, secondaries, w), seeds,
                      EffectiveBeamWidth(beamWidth, multiplier), taken, left);
  }
}
