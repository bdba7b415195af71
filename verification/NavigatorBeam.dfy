/** The beam as the navigator runs it: its graph, its neighbour order, its path score and its width. */
module NavigatorBeam {
  import opened Sorting
  import opened EdgePriority
  import opened BeamSearch
  import opened BeamTheorems

  // ── the graph ─────────────────────────────────────────────────────

  /** The neighbour map after pushing the edges one after the other, each under the node it starts at. */
  function Pushed(edges: seq<Edge>): Graph {
    if edges == [] then map[]
    else
      var last := edges[|edges| - 1];
      PushEdge(Pushed(edges[..|edges| - 1]), last.from, last)
  }

  function StartingAt(edges: seq<Edge>, node: string): seq<Edge> {
    if edges == [] then []
    else
      var last := edges[|edges| - 1];
      StartingAt(edges[..|edges| - 1], node) + if last.from == node then [last] else []
  }

  /** The map lists under each node exactly the edges that start there, in the order they were pushed. */
  lemma {:induction false} PushedListsItsEdges(edges: seq<Edge>)
    ensures EdgesStartAtTheirNode(Pushed(edges))
    ensures forall n :: Neighbors(Pushed(edges), n) == StartingAt(edges, n)
  {
    if edges != [] { PushedListsItsEdges(edges[..|edges| - 1]); }
  }

  // ── parallel edges ────────────────────────────────────────────────

  /** `c` extends `p` by an edge that ranks no lower than any other edge from the same node to the same node. */
  ghost predicate BestExtension(s: Search, p: Path, c: Path)
    requires p.nodes != []
  {
    exists e :: e in Neighbors(s.graph, Tail(p)) && c == Extended(p, e)
                && forall other :: other in Neighbors(s.graph, Tail(p)) && other.to == e.to ==> s.edgeLeq(e, other)
  }

  ghost predicate LedBy(edges: seq<Edge>, leq: (Edge, Edge) -> bool, e: Edge) {
    e in edges && forall other :: other in edges && other.to == e.to ==> leq(e, other)
  }

  lemma {:induction false} FirstEdgeStays(p: Path, edges: seq<Edge>, leq: (Edge, Edge) -> bool, seen: set<string>, c: Path)
    requires TotalPreorder(leq) && Sorted(edges, leq) && c in Deduplicate(ExtendAlong(p, edges), seen)
    ensures exists e :: LedBy(edges, leq, e) && c == Extended(p, e)
  {
    if edges != [] {
      var rest, first := edges[1..], Extended(p, edges[0]);
      assert ExtendAlong(p, edges) == (if edges[0].to in p.nodes then [] else [first]) + ExtendAlong(p, rest);
      if edges[0].to !in p.nodes && c == first {
        assert leq(edges[0], edges[0]);
        assert forall other :: other in edges ==> leq(edges[0], other);
        assert LedBy(edges, leq, edges[0]);
      } else {
        var seen' := if edges[0].to in p.nodes || Signature(first) in seen then seen else seen + {Signature(first)};
        Unfirst(p, edges, seen, c);
        FirstEdgeStays(p, rest, leq, seen', c);
        var e :| LedBy(rest, leq, e) && c == Extended(p, e);
        NotParallel(p, edges[0], e, rest, seen');
        assert forall other :: other in edges <==> other == edges[0] || other in rest;
        assert LedBy(edges, leq, e);
      }
    }
  }

  /** What is kept behind the first edge leads elsewhere than the first edge. */
  lemma NotParallel(p: Path, first: Edge, e: Edge, rest: seq<Edge>, seen: set<string>)
    requires first.to in p.nodes || Signature(Extended(p, first)) in seen
    requires Extended(p, e) in Deduplicate(ExtendAlong(p, rest), seen)
    ensures first.to != e.to
  {
    DeduplicateSubset(ExtendAlong(p, rest), seen);
    ExtendAlongExactly(p, rest);
    var kept :| kept in rest && kept.to !in p.nodes && Extended(p, e) == Extended(p, kept);
    assert Extended(p, e).nodes[|p.nodes|] == e.to && Extended(p, kept).nodes[|p.nodes|] == kept.to;
    if first.to == e.to { ParallelShareSignature(p, first, e); }
  }

  lemma ParallelShareSignature(p: Path, a: Edge, b: Edge)
    requires a.to == b.to
    ensures Signature(Extended(p, a)) == Signature(Extended(p, b))
  {
    assert Extended(p, a).nodes == Extended(p, b).nodes;
  }

  lemma Unfirst(p: Path, edges: seq<Edge>, seen: set<string>, c: Path)
    requires edges != [] && c in Deduplicate(ExtendAlong(p, edges), seen)
    requires edges[0].to in p.nodes || c != Extended(p, edges[0])
    ensures var first := Extended(p, edges[0]);
            var seen' := if edges[0].to in p.nodes || Signature(first) in seen then seen else seen + {Signature(first)};
            c in Deduplicate(ExtendAlong(p, edges[1..]), seen')
  {
    var first, rest := Extended(p, edges[0]), ExtendAlong(p, edges[1..]);
    if edges[0].to in p.nodes {
      assert ExtendAlong(p, edges) == rest;
    } else {
      assert ExtendAlong(p, edges) == [first] + rest;
      assert ([first] + rest)[1..] == rest;
    }
  }

  /** Deduplicating two lists in a row keeps from the second what the first has not shown. */
  lemma {:induction false} DeduplicateSplits(a: seq<Path>, b: seq<Path>, seen: set<string>, c: Path)
    requires c in Deduplicate(a + b, seen)
    ensures c in Deduplicate(a, seen) || exists seen' :: c in Deduplicate(b, seen')
  {
    if a == [] {
      assert a + b == b;
    } else {
      assert (a + b)[0] == a[0] && (a + b)[1..] == a[1..] + b;
      var seen' := if Signature(a[0]) in seen then seen else seen + {Signature(a[0])};
      if Signature(a[0]) in seen || c != a[0] {
        DeduplicateSplits(a[1..], b, seen', c);
      }
    }
  }

  lemma {:induction false} LayerKeepsBestEdges(s: Search, layer: seq<Path>, seen: set<string>, c: Path)
    requires TotalPreorder(s.edgeLeq) && NonEmpty(layer) && c in Deduplicate(NextCandidates(s, layer), seen)
    ensures exists p :: p in layer && p.nodes != [] && BestExtension(s, p, c)
  {
    if layer != [] {
      var p := layer[0];
      var edges := SortedNeighbors(s, Tail(p));
      DeduplicateSplits(ExtendAlong(p, edges), NextCandidates(s, layer[1..]), seen, c);
      if c in Deduplicate(ExtendAlong(p, edges), seen) {
        SortSorted(Neighbors(s.graph, Tail(p)), s.edgeLeq);
        FirstEdgeStays(p, edges, s.edgeLeq, seen, c);
        var e :| LedBy(edges, s.edgeLeq, e) && c == Extended(p, e);
        assert BestExtension(s, p, c);
      } else {
        var seen' :| c in Deduplicate(NextCandidates(s, layer[1..]), seen');
        LayerKeepsBestEdges(s, layer[1..], seen', c);
        var q :| q in layer[1..] && q.nodes != [] && BestExtension(s, q, c);
        assert q in layer;
      }
    }
  }

  // ── the navigator's search ────────────────────────────────────────

  /** Every path of a layer takes, between its last two nodes, an edge that no parallel edge outranks by edge
      priority, weight and time. */
  lemma NavigatorTakesBestEdges(graph: Graph, seedScores: map<string, real>, q: QueryType, secondaries: seq<QueryType>,
                                w: Weights, layer: seq<Path>, width: nat, c: Path)
    requires NonEmpty(layer) && c in NextLayer(NavigatorSearch(graph, seedScores, q, secondaries, w), layer, width)
    ensures exists p, e :: p in layer && p.nodes != [] && e in Neighbors(graph, Tail(p)) && c == Extended(p, e)
              && forall other :: other in Neighbors(graph, Tail(p)) && other.to == e.to
                   ==> CompareNeighborEdges(e, other, q, secondaries, w) <= 0.0
  {
    var s := NavigatorSearch(graph, seedScores, q, secondaries, w);
    OrderIsTotal(PriorityFor(q, secondaries), w);
    assert TotalPreorder(s.edgeLeq);
    RankedFromCandidates(s, layer);
    var next := NextLayer(s, layer, width);
    var i :| 0 <= i < |next| && next[i] == c;
    assert c in RankedUnique(s, layer);
    LayerKeepsBestEdges(s, layer, {}, c);
    var p :| p in layer && p.nodes != [] && BestExtension(s, p, c);
    var e :| e in Neighbors(s.graph, Tail(p)) && c == Extended(p, e)
             && forall other :: other in Neighbors(s.graph, Tail(p)) && other.to == e.to ==> s.edgeLeq(e, other);
  }

  /** A simple path from a seed along the pushed edges, joined end to end. */
  ghost predicate AlongEdges(edges: seq<Edge>, seeds: seq<Seed>, p: Path) {
    && p.depth == |p.edges| && |p.nodes| == |p.edges| + 1
    && NoDuplicates(p.nodes) && FromSeed(seeds, p.nodes[0])
    && forall i :: 0 <= i < |p.edges| ==>
         p.edges[i] in edges && p.edges[i].from == p.nodes[i] && p.edges[i].to == p.nodes[i + 1]
  }

  lemma OkPathIsAlongEdges(edges: seq<Edge>, seeds: seq<Seed>, p: Path)
    requires PathOk(Pushed(edges), seeds, p)
    ensures AlongEdges(edges, seeds, p)
  {
    PushedListsItsEdges(edges);
    forall i | 0 <= i < |p.edges|
      ensures p.edges[i] in edges && p.edges[i].from == p.nodes[i] && p.edges[i].to == p.nodes[i + 1]
    {
      StartingAtExactly(edges, p.nodes[i], p.edges[i]);
    }
  }

  /** What the navigator returns: at most 32 paths a depth, all simple, all along the pushed edges, joined end to
      end, whatever the width option, its multiplier and the scores. */
  lemma NavigatorBeamIsSoundAndBounded(edges: seq<Edge>, seedScores: map<string, real>, q: QueryType, secondaries: seq<QueryType>,
                                       w: Weights, seeds: seq<Seed>, beamWidth: real, multiplier: real, maxDepth: nat)
    ensures var s := NavigatorSearch(Pushed(edges), seedScores, q, secondaries, w);
            var paths := BeamPaths(s, seeds, EffectiveBeamWidth(beamWidth, multiplier), maxDepth);
            && |paths| <= 32 * (maxDepth + 1)
            && forall p :: p in paths ==> AlongEdges(edges, seeds, p) && p.depth <= maxDepth
  {
    var s := NavigatorSearch(Pushed(edges), seedScores, q, secondaries, w);
    var width := EffectiveBeamWidth(beamWidth, multiplier);
    BeamIsSound(s, seeds, width, maxDepth);
    BeamIsBounded(s, seeds, width, maxDepth);
    Widest(width, maxDepth + 1);
    forall p | p in BeamPaths(s, seeds, width, maxDepth) ensures AlongEdges(edges, seeds, p) {
      OkPathIsAlongEdges(edges, seeds, p);
    }
  }

  lemma Widest(width: nat, layers: nat)
    requires width <= 32
    ensures width * layers <= 32 * layers
  {
  }

  lemma {:induction false} StartingAtExactly(edges: seq<Edge>, node: string, e: Edge)
    ensures e in StartingAt(edges, node) <==> e in edges && e.from == node
  {
    if edges != [] {
      var n := |edges| - 1;
      StartingAtExactly(edges[..n], node, e);
      assert edges == edges[..n] + [edges[n]];
    }
  }

  /** Of the distinct candidates of a layer, none that is cut has a better preliminary score than one that is kept. */
  lemma NavigatorCutsTheWorst(graph: Graph, seedScores: map<string, real>, q: QueryType, secondaries: seq<QueryType>,
                              w: Weights, layer: seq<Path>, beamWidth: real, multiplier: real, kept: Path, cut: Path)
    requires NonEmpty(layer)
    requires var s, width := NavigatorSearch(graph, seedScores, q, secondaries, w), EffectiveBeamWidth(beamWidth, multiplier);
             kept in NextLayer(s, layer, width) && cut in Unique(s, layer) && cut !in NextLayer(s, layer, width)
    ensures PreliminaryPathScore(kept, seedScores, q, secondaries, w) >= PreliminaryPathScore(cut, seedScores, q, secondaries, w)
  {
    KeptBeatsCut(NavigatorSearch(graph, seedScores, q, secondaries, w), layer, EffectiveBeamWidth(beamWidth, multiplier), kept, cut);
  }
}
