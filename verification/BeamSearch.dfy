/** The layered beam over typed edges, and its specification: bounded enumeration of simple paths. */
module BeamSearch {
  import opened Sorting
  import opened EdgePriority

  datatype Seed = Seed(nodeRef: string, fusedScore: real)

  /** A path with the candidate seed it grew from; `internalEdges` repeats the edges of the path. */
  datatype Path = Path(origin: Seed, seed: string, nodes: seq<string>, edges: seq<Edge>, depth: nat,
                       internalEdges: seq<Edge>)

  /** The outgoing edges of each node, as the repository returns them. */
  type Graph = map<string, seq<Edge>>

  function Neighbors(g: Graph, node: string): seq<Edge> {
    if node in g then g[node] else []
  }

  ghost predicate EdgesStartAtTheirNode(g: Graph) {
    forall n, e :: n in g && e in g[n] ==> e.from == n
  }

  /** pushEdge: the edge goes to the end of the list of its node. */
  function PushEdge(g: Graph, from: string, e: Edge): (g': Graph)
    ensures e.from == from && EdgesStartAtTheirNode(g) ==> EdgesStartAtTheirNode(g')
    ensures forall n :: Neighbors(g', n) == if n == from then Neighbors(g, n) + [e] else Neighbors(g, n)
  {
    g[from := Neighbors(g, from) + [e]]
  }

  // ── scoring and width ─────────────────────────────────────────────

  /** What the beam consults: the graph, the seed scores, the neighbour order and the path score. */
  datatype Search = Search(graph: Graph, seedScore: Seed -> real, edgeLeq: (Edge, Edge) -> bool, pathScore: Path -> real)

  function SeedScore(seedScores: map<string, real>, node: string): real {
    if node in seedScores then seedScores[node] else 0.0
  }

  /** An edge's priority times its multiplier. */
  function WeightedScore(q: QueryType, secondaries: seq<QueryType>, w: Weights): Edge -> real {
    (e: Edge) => EdgePriorityScore(e.kind, q, secondaries) * EffectiveEdgeMultiplier(e.kind, w)
  }

  function EdgeScoreSum(edges: seq<Edge>, score: Edge -> real): real {
    if edges == [] then 0.0
    else EdgeScoreSum(edges[..|edges| - 1], score) + score(edges[|edges| - 1])
  }

  function PreliminaryPathScore(p: Path, seedScores: map<string, real>, q: QueryType, secondaries: seq<QueryType>,
                                w: Weights): real
  {
    var edgeScore := if p.internalEdges == [] then 0.0
                     else EdgeScoreSum(p.internalEdges, WeightedScore(q, secondaries, w)) / (|p.internalEdges| as real);
    0.55 * SeedScore(seedScores, p.seed) + 0.45 * edgeScore - 0.1 * (p.depth as real / 2.0)
  }

  /** The search the navigator runs for one query. */
  function NavigatorSearch(graph: Graph, seedScores: map<string, real>, q: QueryType, secondaries: seq<QueryType>,
                           w: Weights): Search
  {
    Search(graph,
           (seed: Seed) => SeedScore(seedScores, seed.nodeRef),
           (a: Edge, b: Edge) => CompareNeighborEdges(a, b, q, secondaries, w) <= 0.0,
           (p: Path) => PreliminaryPathScore(p, seedScores, q, secondaries, w))
  }

  const MAX_BEAM_WIDTH := 32

  /** Math.min(32, Math.max(1, Math.ceil(beamWidth * multiplier))) */
  function EffectiveBeamWidth(beamWidth: real, multiplier: real): (w: nat)
    ensures 1 <= w <= MAX_BEAM_WIDTH
    ensures 0.0 < beamWidth * multiplier <= MAX_BEAM_WIDTH as real ==>
              (w - 1) as real < beamWidth * multiplier <= w as real
  {
    var ceil := -((-(beamWidth * multiplier)).Floor);
    if ceil < 1 then 1 else if ceil > MAX_BEAM_WIDTH then MAX_BEAM_WIDTH else ceil
  }

  predicate SeedLeq(s: Search, a: Seed, b: Seed) { s.seedScore(a) >= s.seedScore(b) }

  predicate PathLeq(s: Search, a: Path, b: Path) { s.pathScore(a) >= s.pathScore(b) }

  // ── the layers ────────────────────────────────────────────────────

  function Take<T>(xs: seq<T>, n: nat): (r: seq<T>)
    ensures r <= xs && |r| <= n && (|xs| <= n ==> r == xs)
  {
    if |xs| <= n then xs else xs[..n]
  }

  function StartPath(seed: Seed): Path {
    Path(seed, seed.nodeRef, [seed.nodeRef], [], 0, [])
  }

  function StartPaths(seeds: seq<Seed>): (r: seq<Path>)
    ensures |r| == |seeds| && forall i :: 0 <= i < |r| ==> r[i] == StartPath(seeds[i])
  {
    seq(|seeds|, i requires 0 <= i < |seeds| => StartPath(seeds[i]))
  }

  function SeedLayer(s: Search, seeds: seq<Seed>, width: nat): seq<Path> {
    StartPaths(Take(StableSort(seeds, (a, b) => SeedLeq(s, a, b)), width))
  }

  function Extended(p: Path, e: Edge): Path {
    Path(p.origin, p.seed, p.nodes + [e.to], p.edges + [e], p.depth + 1, p.internalEdges + [e])
  }

  function ExtendAlong(p: Path, edges: seq<Edge>): seq<Path> {
    if edges == [] then []
    else (if edges[0].to in p.nodes then [] else [Extended(p, edges[0])]) + ExtendAlong(p, edges[1..])
  }

  function SortedNeighbors(s: Search, node: string): seq<Edge> {
    StableSort(Neighbors(s.graph, node), s.edgeLeq)
  }

  predicate NonEmpty(layer: seq<Path>) {
    forall p :: p in layer ==> p.nodes != []
  }

  function Tail(p: Path): string
    requires p.nodes != []
  {
    p.nodes[|p.nodes| - 1]
  }

  function NextCandidates(s: Search, layer: seq<Path>): seq<Path>
    requires NonEmpty(layer)
  {
    if layer == [] then []
    else ExtendAlong(layer[0], SortedNeighbors(s, Tail(layer[0]))) + NextCandidates(s, layer[1..])
  }

  function Join(nodes: seq<string>): string {
    if nodes == [] then "" else if |nodes| == 1 then nodes[0] else nodes[0] + [SEPARATOR] + Join(nodes[1..])
  }

  const SEPARATOR := '>'
  const BAR := '|'

  function Signature(p: Path): string {
    p.seed + [BAR] + Join(p.nodes)
  }

  /** The first path of each signature, in order. */
  function Deduplicate(paths: seq<Path>, seen: set<string>): seq<Path> {
    if paths == [] then []
    else if Signature(paths[0]) in seen then Deduplicate(paths[1..], seen)
    else [paths[0]] + Deduplicate(paths[1..], seen + {Signature(paths[0])})
  }

  function Unique(s: Search, layer: seq<Path>): seq<Path>
    requires NonEmpty(layer)
  {
    Deduplicate(NextCandidates(s, layer), {})
  }

  function RankedUnique(s: Search, layer: seq<Path>): seq<Path>
    requires NonEmpty(layer)
  {
    StableSort(Unique(s, layer), (a, b) => PathLeq(s, a, b))
  }

  function NextLayer(s: Search, layer: seq<Path>, width: nat): (next: seq<Path>)
    requires NonEmpty(layer)
    ensures |next| <= width
  {
    Take(RankedUnique(s, layer), width)
  }

  lemma {:induction false} DeduplicateSubset(paths: seq<Path>, seen: set<string>)
    ensures forall p :: p in Deduplicate(paths, seen) ==> p in paths && Signature(p) !in seen
  {
    if paths != [] {
      DeduplicateSubset(paths[1..], if Signature(paths[0]) in seen then seen else seen + {Signature(paths[0])});
    }
  }

  lemma {:induction false} DeduplicateCovers(paths: seq<Path>, seen: set<string>)
    ensures forall p :: p in paths && Signature(p) !in seen ==>
              exists u :: u in Deduplicate(paths, seen) && Signature(u) == Signature(p)
  {
    if paths != [] {
      var seen' := if Signature(paths[0]) in seen then seen else seen + {Signature(paths[0])};
      DeduplicateCovers(paths[1..], seen');
      forall p | p in paths && Signature(p) !in seen
        ensures exists u :: u in Deduplicate(paths, seen) && Signature(u) == Signature(p)
      {
        if Signature(p) == Signature(paths[0]) {
          assert paths[0] in Deduplicate(paths, seen);
        } else {
          assert p in paths[1..];
          var u :| u in Deduplicate(paths[1..], seen') && Signature(u) == Signature(p);
          assert u in Deduplicate(paths, seen);
        }
      }
    }
  }

  lemma {:induction false} ExtendAlongExactly(p: Path, edges: seq<Edge>)
    ensures forall c :: c in ExtendAlong(p, edges) <==> exists e :: e in edges && e.to !in p.nodes && c == Extended(p, e)
  {
    if edges != [] {
      ExtendAlongExactly(p, edges[1..]);
      forall c
        ensures c in ExtendAlong(p, edges) <==> exists e :: e in edges && e.to !in p.nodes && c == Extended(p, e)
      {
        assert forall e :: e in edges <==> e == edges[0] || e in edges[1..];
      }
    }
  }

  /** A candidate is an extension of some path of the layer by an edge of its tail to a node not on it yet. */
  ghost predicate Extends(s: Search, layer: seq<Path>, c: Path)
    requires NonEmpty(layer)
  {
    exists p, e :: p in layer && e in Neighbors(s.graph, Tail(p)) && e.to !in p.nodes && c == Extended(p, e)
  }

  lemma {:induction false} CandidatesExactly(s: Search, layer: seq<Path>)
    requires NonEmpty(layer)
    ensures forall c :: c in NextCandidates(s, layer) <==> Extends(s, layer, c)
  {
    if layer != [] {
      CandidatesExactly(s, layer[1..]);
      var edges := SortedNeighbors(s, Tail(layer[0]));
      ExtendAlongExactly(layer[0], edges);
      SortPermutes(Neighbors(s.graph, Tail(layer[0])), s.edgeLeq);
      forall c ensures c in NextCandidates(s, layer) <==> Extends(s, layer, c) {
        if Extends(s, layer, c) {
          var p, e :| p in layer && e in Neighbors(s.graph, Tail(p)) && e.to !in p.nodes && c == Extended(p, e);
          if p != layer[0] {
            assert p in layer[1..];
            assert Extends(s, layer[1..], c);
          }
        }
        if c in NextCandidates(s, layer[1..]) {
          var p, e :| p in layer[1..] && e in Neighbors(s.graph, Tail(p)) && e.to !in p.nodes && c == Extended(p, e);
          assert p in layer;
        }
      }
    }
  }

  lemma RankedFromCandidates(s: Search, layer: seq<Path>)
    requires NonEmpty(layer)
    ensures |RankedUnique(s, layer)| == |Unique(s, layer)|
    ensures forall p :: p in RankedUnique(s, layer) <==> p in Unique(s, layer)
    ensures forall p :: p in RankedUnique(s, layer) ==> p in NextCandidates(s, layer)
  {
    SortPermutes(Unique(s, layer), (a: Path, b: Path) => PathLeq(s, a, b));
    DeduplicateSubset(NextCandidates(s, layer), {});
  }

  lemma NextLayerNonEmpty(s: Search, layer: seq<Path>, width: nat)
    requires NonEmpty(layer)
    ensures NonEmpty(NextLayer(s, layer, width))
    ensures forall p :: p in NextLayer(s, layer, width) ==> p in NextCandidates(s, layer)
    ensures NextCandidates(s, layer) == [] ==> NextLayer(s, layer, width) == []
  {
    RankedFromCandidates(s, layer);
    CandidatesExactly(s, layer);
    var ranked, next := RankedUnique(s, layer), NextLayer(s, layer, width);
    forall p | p in next ensures p in ranked { }
    assert next != [] ==> next[0] in next;
  }

  /** The next `rounds` layers after `layer`, one after the other. */
  function LayersFrom(s: Search, layer: seq<Path>, width: nat, rounds: nat): seq<Path>
    requires NonEmpty(layer)
    decreases rounds
  {
    if rounds == 0 then []
    else
      NextLayerNonEmpty(s, layer, width);
      NextLayer(s, layer, width) + LayersFrom(s, NextLayer(s, layer, width), width, rounds - 1)
  }

  function BeamPaths(s: Search, seeds: seq<Seed>, width: nat, maxDepth: nat): seq<Path> {
    SeedLayer(s, seeds, width) + LayersFrom(s, SeedLayer(s, seeds, width), width, maxDepth)
  }

  // ── the algorithm ─────────────────────────────────────────────────

  method DeduplicatePaths(paths: seq<Path>) returns (unique: seq<Path>)
    ensures unique == Deduplicate(paths, {})
  {
    unique := [];
    var seen: set<string> := {};
    for i := 0 to |paths|
      invariant unique + Deduplicate(paths[i..], seen) == Deduplicate(paths, {})
    {
      DeduplicateStep(paths, i, seen);
      var signature := Signature(paths[i]);
      if signature !in seen {
        seen := seen + {signature};
        Associates(unique, [paths[i]], Deduplicate(paths[i + 1..], seen));
        unique := unique + [paths[i]];
      }
    }
  }

  lemma DeduplicateStep(paths: seq<Path>, i: nat, seen: set<string>)
    requires i < |paths|
    ensures Deduplicate(paths[i..], seen) ==
            if Signature(paths[i]) in seen then Deduplicate(paths[i + 1..], seen)
            else [paths[i]] + Deduplicate(paths[i + 1..], seen + {Signature(paths[i])})
  {
    assert paths[i..][1..] == paths[i + 1..];
  }

  lemma ExtendStep(p: Path, edges: seq<Edge>, i: nat, found: seq<Path>)
    requires i < |edges|
    ensures found + ExtendAlong(p, edges[i..]) ==
            (if edges[i].to in p.nodes then found else found + [Extended(p, edges[i])]) + ExtendAlong(p, edges[i + 1..])
  {
    assert edges[i..][1..] == edges[i + 1..];
    Associates(found, [Extended(p, edges[i])], ExtendAlong(p, edges[i + 1..]));
  }

  lemma CandidatesStep(s: Search, layer: seq<Path>, i: nat)
    requires NonEmpty(layer) && i < |layer|
    ensures NonEmpty(layer[i..]) && NonEmpty(layer[i + 1..]) && layer[i].nodes != []
    ensures NextCandidates(s, layer[i..])
            == ExtendAlong(layer[i], SortedNeighbors(s, Tail(layer[i]))) + NextCandidates(s, layer[i + 1..])
  {
    assert layer[i] in layer;
    assert layer[i..][1..] == layer[i + 1..];
    assert forall p :: p in layer[i..] ==> p in layer;
    assert forall p :: p in layer[i + 1..] ==> p in layer;
  }

  method ExpandPath(p: Path, neighbors: seq<Edge>) returns (found: seq<Path>)
    ensures found == ExtendAlong(p, neighbors)
  {
    found := [];
    for i := 0 to |neighbors|
      invariant found + ExtendAlong(p, neighbors[i..]) == ExtendAlong(p, neighbors)
    {
      ExtendStep(p, neighbors, i, found);
      if neighbors[i].to !in p.nodes {
        found := found + [Extended(p, neighbors[i])];
      }
    }
  }

  method ExpandLayer(s: Search, layer: seq<Path>) returns (candidates: seq<Path>)
    requires NonEmpty(layer)
    ensures candidates == NextCandidates(s, layer)
  {
    candidates := [];
    for i := 0 to |layer|
      invariant NonEmpty(layer[i..])
      invariant candidates + NextCandidates(s, layer[i..]) == NextCandidates(s, layer)
    {
      CandidatesStep(s, layer, i);
      var found := ExpandPath(layer[i], SortedNeighbors(s, Tail(layer[i])));
      Associates(candidates, found, NextCandidates(s, layer[i + 1..]));
      candidates := candidates + found;
    }
  }

  method RankAndCut(s: Search, ghost layer: seq<Path>, candidates: seq<Path>, width: nat) returns (next: seq<Path>)
    requires NonEmpty(layer) && candidates == NextCandidates(s, layer)
    ensures next == NextLayer(s, layer, width)
  {
    var unique := DeduplicatePaths(candidates);
    unique := StableSort(unique, (a, b) => PathLeq(s, a, b));
    next := Take(unique, width);
  }

  lemma UnfoldLayers(s: Search, layer: seq<Path>, width: nat, rounds: nat) returns (next: seq<Path>, rest: seq<Path>)
    requires NonEmpty(layer) && rounds > 0
    ensures next == NextLayer(s, layer, width) && NonEmpty(next)
    ensures rest == LayersFrom(s, next, width, rounds - 1)
    ensures LayersFrom(s, layer, width, rounds) == next + rest
  {
    NextLayerNonEmpty(s, layer, width);
    next := NextLayer(s, layer, width);
    rest := LayersFrom(s, next, width, rounds - 1);
  }

  /** The depth loop, from a given first layer. */
  method GrowLayers(s: Search, firstLayer: seq<Path>, width: nat, maxDepth: nat) returns (allPaths: seq<Path>)
    requires NonEmpty(firstLayer)
    ensures allPaths == firstLayer + LayersFrom(s, firstLayer, width, maxDepth)
  {
    var currentLayer := firstLayer;
    allPaths := currentLayer;
    ghost var total := firstLayer + LayersFrom(s, firstLayer, width, maxDepth);
    ghost var rest := LayersFrom(s, firstLayer, width, maxDepth);
    var depth := 1;
    while depth <= maxDepth
      invariant 1 <= depth <= maxDepth + 1
      invariant NonEmpty(currentLayer)
      invariant rest == LayersFrom(s, currentLayer, width, maxDepth + 1 - depth)
      invariant allPaths + rest == total
    {
      var nextCandidates := ExpandLayer(s, currentLayer);
      if nextCandidates == [] {
        EmptyFromHere(s, currentLayer, width, maxDepth + 1 - depth);
        return;
      }
      ghost var next, rest' := UnfoldLayers(s, currentLayer, width, maxDepth + 1 - depth);
      currentLayer := RankAndCut(s, currentLayer, nextCandidates, width);
      Associates(allPaths, next, rest');
      rest := rest';
      allPaths := allPaths + currentLayer;
      depth := depth + 1;
    }
  }

  method ExpandTypedBeam(s: Search, seeds: seq<Seed>, width: nat, maxDepth: nat) returns (allPaths: seq<Path>)
    ensures allPaths == BeamPaths(s, seeds, width, maxDepth)
  {
    var sortedSeeds := StableSort(seeds, (a, b) => SeedLeq(s, a, b));
    allPaths := GrowLayers(s, StartPaths(Take(sortedSeeds, width)), width, maxDepth);
  }

  /** Stopping at the first layer without candidates loses nothing: all later layers are empty. */
  lemma {:induction false} EmptyFromHere(s: Search, layer: seq<Path>, width: nat, rounds: nat)
    requires NonEmpty(layer) && NextCandidates(s, layer) == []
    ensures LayersFrom(s, layer, width, rounds) == []
    decreases rounds
  {
    if rounds > 0 {
      NextLayerNonEmpty(s, layer, width);
      EmptyFromHere(s, [], width, rounds - 1);
    }
  }
}
