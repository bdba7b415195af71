/** The beam against exhaustive search: sound paths, bounded output, nothing better cut, and complete
    when the width is never exceeded. */
module BeamTheorems {
  import opened Sorting
  import opened EdgePriority
  import opened BeamSearch

  // ── soundness ─────────────────────────────────────────────────────

  /** A path from its seed along edges of the graph, visiting no node twice. */
  ghost predicate PathOk(g: Graph, seeds: seq<Seed>, p: Path) {
    && p.origin in seeds && p.seed == p.origin.nodeRef
    && p.depth == |p.edges| && |p.nodes| == |p.edges| + 1
    && p.nodes[0] == p.seed
    && NoDuplicates(p.nodes)
    && p.internalEdges == p.edges
    && forall i :: 0 <= i < |p.edges| ==>
         p.edges[i] in Neighbors(g, p.nodes[i]) && p.edges[i].to == p.nodes[i + 1]
  }

  ghost predicate LayerOk(g: Graph, seeds: seq<Seed>, layer: seq<Path>, depth: nat) {
    forall p :: p in layer ==> PathOk(g, seeds, p) && p.depth == depth
  }

  lemma ExtendedOk(g: Graph, seeds: seq<Seed>, p: Path, e: Edge)
    requires PathOk(g, seeds, p) && e in Neighbors(g, Tail(p)) && e.to !in p.nodes
    ensures PathOk(g, seeds, Extended(p, e))
  {
  }

  lemma SeedLayerOk(s: Search, seeds: seq<Seed>, width: nat)
    ensures LayerOk(s.graph, seeds, SeedLayer(s, seeds, width), 0)
  {
    var sorted := StableSort(seeds, (a, b) => SeedLeq(s, a, b));
    SortPermutes(seeds, (a: Seed, b: Seed) => SeedLeq(s, a, b));
    var layer := SeedLayer(s, seeds, width);
    forall p | p in layer ensures PathOk(s.graph, seeds, p) && p.depth == 0 {
      var i :| 0 <= i < |layer| && layer[i] == p;
      assert sorted[i] in sorted;
    }
  }

  lemma NextLayerOk(s: Search, seeds: seq<Seed>, layer: seq<Path>, width: nat, depth: nat)
    requires NonEmpty(layer) && LayerOk(s.graph, seeds, layer, depth)
    ensures NonEmpty(NextLayer(s, layer, width))
    ensures LayerOk(s.graph, seeds, NextLayer(s, layer, width), depth + 1)
  {
    NextLayerNonEmpty(s, layer, width);
    CandidatesExactly(s, layer);
    forall c | c in NextLayer(s, layer, width) ensures PathOk(s.graph, seeds, c) && c.depth == depth + 1 {
      assert Extends(s, layer, c);
      var p, e :| p in layer && e in Neighbors(s.graph, Tail(p)) && e.to !in p.nodes && c == Extended(p, e);
      ExtendedOk(s.graph, seeds, p, e);
    }
  }

  lemma {:induction false} LayersFromOk(s: Search, seeds: seq<Seed>, layer: seq<Path>, width: nat, depth: nat, rounds: nat)
    requires NonEmpty(layer) && LayerOk(s.graph, seeds, layer, depth)
    ensures DepthsOk(s.graph, seeds, LayersFrom(s, layer, width, rounds), depth + 1, depth + rounds)
    decreases rounds
  {
    if rounds > 0 {
      var next, rest := UnfoldLayers(s, layer, width, rounds);
      NextLayerOk(s, seeds, layer, width, depth);
      LayersFromOk(s, seeds, next, width, depth + 1, rounds - 1);
      DepthsJoin(s.graph, seeds, next, rest, depth + 1, depth + rounds);
    }
  }

  ghost predicate DepthsOk(g: Graph, seeds: seq<Seed>, paths: seq<Path>, least: nat, most: nat) {
    forall p :: p in paths ==> PathOk(g, seeds, p) && least <= p.depth <= most
  }

  lemma DepthsJoin(g: Graph, seeds: seq<Seed>, layer: seq<Path>, rest: seq<Path>, depth: nat, most: nat)
    requires LayerOk(g, seeds, layer, depth) && DepthsOk(g, seeds, rest, depth + 1, most) && depth <= most
    ensures DepthsOk(g, seeds, layer + rest, depth, most)
  {
  }

  /** Every returned path starts at its seed, is simple, follows edges of the graph and stays within the depth. */
  lemma BeamIsSound(s: Search, seeds: seq<Seed>, width: nat, maxDepth: nat)
    ensures forall p :: p in BeamPaths(s, seeds, width, maxDepth) ==>
              PathOk(s.graph, seeds, p) && p.depth <= maxDepth
  {
    SeedLayerOk(s, seeds, width);
    LayersFromOk(s, seeds, SeedLayer(s, seeds, width), width, 0, maxDepth);
  }

  /** With well-formed neighbour lists, consecutive edges join end to end. */
  lemma EdgesAreConsecutive(g: Graph, seeds: seq<Seed>, p: Path, i: nat)
    requires EdgesStartAtTheirNode(g) && PathOk(g, seeds, p) && i < |p.edges|
    ensures p.edges[i].from == p.nodes[i]
    ensures i + 1 < |p.edges| ==> p.edges[i].to == p.edges[i + 1].from
  {
    assert p.edges[i] in Neighbors(g, p.nodes[i]);
    if i + 1 < |p.edges| {
      assert p.edges[i + 1] in Neighbors(g, p.nodes[i + 1]);
    }
  }

  // ── redundancy ────────────────────────────────────────────────────

  function CalculateRedundancyPenalty(nodes: seq<string>): real {
    if |nodes| <= 1 then 0.0
    else 1.0 - (|set n | n in nodes| as real) / (|nodes| as real)
  }

  lemma {:induction false} DistinctCount(nodes: seq<string>)
    ensures |set n | n in nodes| <= |nodes|
    ensures |set n | n in nodes| == |nodes| <==> NoDuplicates(nodes)
  {
    if nodes != [] {
      var k := |nodes| - 1;
      var front := nodes[..k];
      DistinctCount(front);
      assert nodes == front + [nodes[k]];
      assert (set n | n in nodes) == (set n | n in front) + {nodes[k]};
      if NoDuplicates(nodes) {
        assert nodes[k] !in front;
      } else if NoDuplicates(front) {
        assert nodes[k] in front;
      }
    }
  }

  /** The penalty is zero exactly on simple paths, so it is zero on everything the beam returns. */
  lemma PenaltyZeroExactlyOnSimplePaths(nodes: seq<string>)
    ensures CalculateRedundancyPenalty(nodes) == 0.0 <==> NoDuplicates(nodes)
    ensures CalculateRedundancyPenalty(nodes) >= 0.0
  {
    DistinctCount(nodes);
    if |nodes| > 1 { WholeRatio(|set n | n in nodes|, |nodes|); }
  }

  lemma WholeRatio(d: nat, n: nat)
    requires d <= n && n > 0
    ensures 1.0 - (d as real) / (n as real) >= 0.0
    ensures 1.0 - (d as real) / (n as real) == 0.0 <==> d == n
  {
    if d == n {
      assert (d as real) / (n as real) == 1.0;
    } else {
      SmallRatio(d as real, n as real);
    }
  }

  lemma SmallRatio(a: real, b: real)
    requires a < b && 0.0 < b
    ensures a / b < 1.0
  {
    var q := a / b;
    assert q * b == a;
    if q >= 1.0 { TimesAtLeastOne(q, b); }
  }

  lemma TimesAtLeastOne(q: real, b: real)
    requires q >= 1.0 && b > 0.0
    ensures q * b >= b
  {
  }

  // ── bounds ────────────────────────────────────────────────────────

  /** `rounds` layers of `width` paths. */
  function Capacity(width: nat, rounds: nat): nat {
    if rounds == 0 then 0 else width + Capacity(width, rounds - 1)
  }

  lemma {:induction false} CapacityIsProduct(width: nat, rounds: nat)
    ensures Capacity(width, rounds) == width * rounds
  {
    if rounds > 0 {
      CapacityIsProduct(width, rounds - 1);
    }
  }

  lemma {:induction false} LayersFromBound(s: Search, layer: seq<Path>, width: nat, rounds: nat)
    requires NonEmpty(layer)
    ensures |LayersFrom(s, layer, width, rounds)| <= Capacity(width, rounds)
    decreases rounds
  {
    if rounds > 0 {
      var next, rest := UnfoldLayers(s, layer, width, rounds);
      LayersFromBound(s, next, width, rounds - 1);
    }
  }

  /** The beam returns at most width paths for each depth. */
  lemma BeamIsBounded(s: Search, seeds: seq<Seed>, width: nat, maxDepth: nat)
    ensures |BeamPaths(s, seeds, width, maxDepth)| <= width * (maxDepth + 1)
  {
    LayersFromBound(s, SeedLayer(s, seeds, width), width, maxDepth);
    CapacityIsProduct(width, maxDepth + 1);
  }

  // ── what is cut ───────────────────────────────────────────────────

  /** Every path kept in a layer scores at least as high as every distinct candidate that was cut. */
  lemma KeptBeatsCut(s: Search, layer: seq<Path>, width: nat, kept: Path, cut: Path)
    requires NonEmpty(layer)
    requires kept in NextLayer(s, layer, width)
    requires cut in Unique(s, layer) && cut !in NextLayer(s, layer, width)
    ensures s.pathScore(kept) >= s.pathScore(cut)
    ensures |NextLayer(s, layer, width)| == width
  {
    var leq := (a: Path, b: Path) => PathLeq(s, a, b);
    var ranked := RankedUnique(s, layer);
    assert ranked == StableSort(Unique(s, layer), leq);
    SortSorted(Unique(s, layer), leq);
    RankedFromCandidates(s, layer);
    var i :| 0 <= i < |NextLayer(s, layer, width)| && NextLayer(s, layer, width)[i] == kept;
    var j :| 0 <= j < |ranked| && ranked[j] == cut;
    assert forall n :: 0 <= n < |NextLayer(s, layer, width)| ==>
        NextLayer(s, layer, width)[n] == ranked[n] && NextLayer(s, layer, width)[n] in NextLayer(s, layer, width);
    assert leq(ranked[i], ranked[j]);
  }

  /** Every candidate is represented among the distinct ones by a path with its seed and nodes. */
  lemma CandidatesRepresented(s: Search, layer: seq<Path>, c: Path)
    requires NonEmpty(layer) && c in NextCandidates(s, layer)
    ensures exists u :: u in Unique(s, layer) && Signature(u) == Signature(c)
  {
    DeduplicateCovers(NextCandidates(s, layer), {});
  }

  ghost predicate SignaturesDistinct(paths: seq<Path>) {
    forall i, j :: 0 <= i < j < |paths| ==> Signature(paths[i]) != Signature(paths[j])
  }

  lemma ConsDistinct(p: Path, rest: seq<Path>)
    requires SignaturesDistinct(rest)
    requires forall r :: r in rest ==> Signature(r) != Signature(p)
    ensures SignaturesDistinct([p] + rest)
  {
    var u := [p] + rest;
    forall i, j | 0 <= i < j < |u| ensures Signature(u[i]) != Signature(u[j]) {
      assert u[j] == rest[j - 1] && rest[j - 1] in rest;
      if i > 0 { assert u[i] == rest[i - 1]; }
    }
  }

  lemma {:induction false} DeduplicateDistinct(paths: seq<Path>, seen: set<string>)
    ensures SignaturesDistinct(Deduplicate(paths, seen))
  {
    if paths != [] {
      var seen' := if Signature(paths[0]) in seen then seen else seen + {Signature(paths[0])};
      DeduplicateDistinct(paths[1..], seen');
      if Signature(paths[0]) !in seen {
        DeduplicateSubset(paths[1..], seen');
        ConsDistinct(paths[0], Deduplicate(paths[1..], seen'));
      }
    }
  }

  /** Within a layer no seed and node sequence occurs twice. */
  lemma LayerHasNoRepeats(s: Search, layer: seq<Path>, width: nat, i: nat, j: nat)
    requires NonEmpty(layer) && i < j < |NextLayer(s, layer, width)|
    ensures var next := NextLayer(s, layer, width);
            next[i].seed != next[j].seed || next[i].nodes != next[j].nodes
  {
    RankedHasNoRepeats(s, layer, i, j);
  }

  lemma RankedHasNoRepeats(s: Search, layer: seq<Path>, i: nat, j: nat)
    requires NonEmpty(layer) && i < j < |RankedUnique(s, layer)|
    ensures Signature(RankedUnique(s, layer)[i]) != Signature(RankedUnique(s, layer)[j])
  {
    var leq := (a: Path, b: Path) => PathLeq(s, a, b);
    var unique := Unique(s, layer);
    DeduplicateDistinct(NextCandidates(s, layer), {});
    assert unique == Deduplicate(NextCandidates(s, layer), {});
    assert RankedUnique(s, layer) == StableSort(unique, leq);
    SortKeepsSignaturesDistinct(unique, leq, i, j);
  }

  lemma SortKeepsSignaturesDistinct(paths: seq<Path>, leq: (Path, Path) -> bool, i: nat, j: nat)
    requires SignaturesDistinct(paths)
    requires i < j < |paths|
    ensures Signature(StableSort(paths, leq)[i]) != Signature(StableSort(paths, leq)[j])
  {
    var sorted := StableSort(paths, leq);
    SortKeepsDistinct(paths, leq);
    SortPermutes(paths, leq);
    assert sorted[i] in sorted && sorted[j] in sorted;
    DistinctSignatures(paths, sorted[i], sorted[j]);
  }

  lemma DistinctSignatures(paths: seq<Path>, p: Path, q: Path)
    requires SignaturesDistinct(paths) && p in paths && q in paths && p != q
    ensures Signature(p) != Signature(q)
  {
    var a :| 0 <= a < |paths| && paths[a] == p;
    var b :| 0 <= b < |paths| && paths[b] == q;
    assert a < b || b < a;
  }

  // ── signatures ────────────────────────────────────────────────────

  /** Node references contain neither of the characters that signatures use as separators. */
  predicate Plain(ref: string) {
    SEPARATOR !in ref && BAR !in ref
  }

  predicate AllPlain(refs: seq<string>) {
    forall r :: r in refs ==> Plain(r)
  }

  lemma SplitAtFirst(a: string, b: string, x: string, y: string, c: char)
    requires c !in a && c !in b
    requires a + [c] + x == b + [c] + y
    ensures a == b && x == y
  {
    var t := a + [c] + x;
    assert forall i :: 0 <= i < |a| ==> t[i] == a[i] && a[i] in a;
    assert forall i :: 0 <= i < |b| ==> t[i] == b[i] && b[i] in b;
    assert t[|a|] == c && t[|b|] == c;
    assert a == t[..|a|] && b == t[..|b|];
    assert x == t[|a| + 1..] && y == t[|b| + 1..];
  }

  lemma JoinSeparator(n: seq<string>)
    requires n != [] && AllPlain(n)
    ensures SEPARATOR in Join(n) <==> |n| > 1
  {
    assert Plain(n[0]);
    if |n| > 1 {
      assert Join(n)[|n[0]|] == SEPARATOR;
    }
  }

  lemma {:induction false} JoinInjective(n: seq<string>, m: seq<string>)
    requires n != [] && m != [] && AllPlain(n) && AllPlain(m) && Join(n) == Join(m)
    ensures n == m
  {
    JoinSeparator(n);
    JoinSeparator(m);
    assert n == [n[0]] + n[1..] && m == [m[0]] + m[1..];
    if |n| > 1 {
      assert Plain(n[0]) && Plain(m[0]);
      SplitAtFirst(n[0], m[0], Join(n[1..]), Join(m[1..]), SEPARATOR);
      JoinInjective(n[1..], m[1..]);
    }
  }

  /** Over plain references, equal signatures mean equal seed and nodes. */
  lemma SignatureInjective(p: Path, q: Path)
    requires p.nodes != [] && q.nodes != [] && AllPlain(p.nodes) && AllPlain(q.nodes)
    requires Plain(p.seed) && Plain(q.seed)
    requires Signature(p) == Signature(q)
    ensures p.seed == q.seed && p.nodes == q.nodes
  {
    SplitAtFirst(p.seed, q.seed, Join(p.nodes), Join(q.nodes), BAR);
    JoinInjective(p.nodes, q.nodes);
  }

  // ── completeness ──────────────────────────────────────────────────

  ghost predicate HasEdge(g: Graph, a: string, b: string) {
    exists e :: e in Neighbors(g, a) && e.to == b
  }

  ghost predicate SimplePath(g: Graph, nodes: seq<string>) {
    && nodes != []
    && NoDuplicates(nodes)
    && forall i :: 0 <= i < |nodes| - 1 ==> HasEdge(g, nodes[i], nodes[i + 1])
  }

  ghost predicate PlainGraph(g: Graph) {
    forall n, e :: n in g && e in g[n] ==> Plain(e.to)
  }

  ghost predicate PlainSeeds(seeds: seq<Seed>) {
    forall seed :: seed in seeds ==> Plain(seed.nodeRef)
  }

  ghost predicate FromSeed(seeds: seq<Seed>, node: string) {
    exists seed :: seed in seeds && seed.nodeRef == node
  }

  /** The layer holds exactly the simple paths of its length from the seeds. */
  ghost predicate LayerComplete(s: Search, seeds: seq<Seed>, layer: seq<Path>, depth: nat) {
    forall nodes: seq<string> :: Holds(layer, nodes) <==>
      SimplePath(s.graph, nodes) && |nodes| == depth + 1 && FromSeed(seeds, nodes[0])
  }

  ghost predicate Holds(layer: seq<Path>, nodes: seq<string>) {
    exists p :: p in layer && p.nodes == nodes
  }

  lemma OkPathIsSimple(g: Graph, seeds: seq<Seed>, p: Path)
    requires PathOk(g, seeds, p)
    ensures SimplePath(g, p.nodes) && |p.nodes| == p.depth + 1 && FromSeed(seeds, p.nodes[0])
    ensures PlainGraph(g) && PlainSeeds(seeds) ==> AllPlain(p.nodes) && Plain(p.seed)
  {
    forall i | 0 <= i < |p.nodes| - 1 ensures HasEdge(g, p.nodes[i], p.nodes[i + 1]) {
      assert p.edges[i] in Neighbors(g, p.nodes[i]);
    }
    if PlainGraph(g) && PlainSeeds(seeds) {
      forall r | r in p.nodes ensures Plain(r) {
        var i :| 0 <= i < |p.nodes| && p.nodes[i] == r;
        if i > 0 { assert p.edges[i - 1] in Neighbors(g, p.nodes[i - 1]); }
      }
    }
  }

  lemma SeedLayerComplete(s: Search, seeds: seq<Seed>, width: nat)
    requires |seeds| <= width
    ensures LayerComplete(s, seeds, SeedLayer(s, seeds, width), 0)
  {
    var sorted := StableSort(seeds, (a, b) => SeedLeq(s, a, b));
    SortPermutes(seeds, (a: Seed, b: Seed) => SeedLeq(s, a, b));
    var layer := SeedLayer(s, seeds, width);
    SeedLayerOk(s, seeds, width);
    forall nodes: seq<string>
      ensures Holds(layer, nodes) <==> SimplePath(s.graph, nodes) && |nodes| == 1 && FromSeed(seeds, nodes[0])
    {
      if Holds(layer, nodes) {
        var p :| p in layer && p.nodes == nodes;
        OkPathIsSimple(s.graph, seeds, p);
      }
      if SimplePath(s.graph, nodes) && |nodes| == 1 && FromSeed(seeds, nodes[0]) {
        var seed :| seed in seeds && seed.nodeRef == nodes[0];
        var i :| 0 <= i < |sorted| && sorted[i] == seed;
        assert layer[i].nodes == nodes && layer[i] in layer;
      }
    }
  }

  lemma FrontIsSimple(g: Graph, nodes: seq<string>, n: nat)
    requires SimplePath(g, nodes) && 1 <= n < |nodes|
    ensures SimplePath(g, nodes[..n]) && nodes[n] !in nodes[..n] && HasEdge(g, nodes[n - 1], nodes[n])
  {
    var front := nodes[..n];
    forall i | 0 <= i < |front| - 1 ensures HasEdge(g, front[i], front[i + 1]) {
      assert HasEdge(g, nodes[i], nodes[i + 1]);
    }
    assert HasEdge(g, nodes[n - 1], nodes[n - 1 + 1]);
  }

  lemma NextLayerReaches(s: Search, seeds: seq<Seed>, layer: seq<Path>, width: nat, depth: nat, nodes: seq<string>)
    requires PlainGraph(s.graph) && PlainSeeds(seeds)
    requires NonEmpty(layer) && LayerOk(s.graph, seeds, layer, depth) && LayerComplete(s, seeds, layer, depth)
    requires |Unique(s, layer)| <= width
    requires SimplePath(s.graph, nodes) && |nodes| == depth + 2 && FromSeed(seeds, nodes[0])
    ensures Holds(NextLayer(s, layer, width), nodes)
  {
    var front := nodes[..depth + 1];
    FrontIsSimple(s.graph, nodes, depth + 1);
    var p := HolderOf(s, seeds, layer, depth, front);
    var e :| e in Neighbors(s.graph, nodes[depth]) && e.to == nodes[depth + 1];
    assert Extended(p, e).nodes == nodes;
    ExtensionKept(s, seeds, layer, width, depth, p, e);
  }

  lemma HolderOf(s: Search, seeds: seq<Seed>, layer: seq<Path>, depth: nat, nodes: seq<string>) returns (p: Path)
    requires LayerComplete(s, seeds, layer, depth)
    requires SimplePath(s.graph, nodes) && |nodes| == depth + 1 && FromSeed(seeds, nodes[0])
    ensures p in layer && p.nodes == nodes
  {
    assert Holds(layer, nodes);
    p :| p in layer && p.nodes == nodes;
  }

  /** Without a cut, the nodes of every extension appear in the next layer. */
  lemma ExtensionKept(s: Search, seeds: seq<Seed>, layer: seq<Path>, width: nat, depth: nat, p: Path, e: Edge)
    requires PlainGraph(s.graph) && PlainSeeds(seeds)
    requires NonEmpty(layer) && LayerOk(s.graph, seeds, layer, depth)
    requires |Unique(s, layer)| <= width
    requires p in layer && e in Neighbors(s.graph, Tail(p)) && e.to !in p.nodes
    ensures Holds(NextLayer(s, layer, width), Extended(p, e).nodes)
  {
    var c := Extended(p, e);
    CandidatesExactly(s, layer);
    assert Extends(s, layer, c);
    CandidatesRepresented(s, layer, c);
    var u :| u in Unique(s, layer) && Signature(u) == Signature(c);
    RankedFromCandidates(s, layer);
    NextLayerOk(s, seeds, layer, width, depth);
    assert u in NextLayer(s, layer, width);
    ExtendedOk(s.graph, seeds, p, e);
    OkPathIsSimple(s.graph, seeds, c);
    OkPathIsSimple(s.graph, seeds, u);
    SignatureInjective(u, c);
  }

  lemma NextLayerComplete(s: Search, seeds: seq<Seed>, layer: seq<Path>, width: nat, depth: nat)
    requires PlainGraph(s.graph) && PlainSeeds(seeds)
    requires NonEmpty(layer) && LayerOk(s.graph, seeds, layer, depth) && LayerComplete(s, seeds, layer, depth)
    requires |Unique(s, layer)| <= width
    ensures LayerComplete(s, seeds, NextLayer(s, layer, width), depth + 1)
  {
    var next := NextLayer(s, layer, width);
    NextLayerOk(s, seeds, layer, width, depth);
    forall nodes: seq<string>
      ensures Holds(next, nodes) <==>
              SimplePath(s.graph, nodes) && |nodes| == depth + 2 && FromSeed(seeds, nodes[0])
    {
      if Holds(next, nodes) {
        var p :| p in next && p.nodes == nodes;
        OkPathIsSimple(s.graph, seeds, p);
      }
      if SimplePath(s.graph, nodes) && |nodes| == depth + 2 && FromSeed(seeds, nodes[0]) {
        NextLayerReaches(s, seeds, layer, width, depth, nodes);
      }
    }
  }

  /** No layer has more distinct candidates than the width. */
  ghost predicate NeverCuts(s: Search, layer: seq<Path>, width: nat, rounds: nat)
    requires NonEmpty(layer)
    decreases rounds
  {
    rounds > 0 ==>
      && |Unique(s, layer)| <= width
      && NonEmpty(NextLayer(s, layer, width))
      && NeverCuts(s, NextLayer(s, layer, width), width, rounds - 1)
  }

  lemma {:induction false} LayersFromComplete(s: Search, seeds: seq<Seed>, layer: seq<Path>, width: nat,
                                              depth: nat, rounds: nat)
    requires PlainGraph(s.graph) && PlainSeeds(seeds)
    requires NonEmpty(layer) && LayerOk(s.graph, seeds, layer, depth) && LayerComplete(s, seeds, layer, depth)
    requires NeverCuts(s, layer, width, rounds)
    ensures forall nodes: seq<string> :: Holds(LayersFrom(s, layer, width, rounds), nodes) <==>
              SimplePath(s.graph, nodes) && depth + 1 < |nodes| <= depth + 1 + rounds && FromSeed(seeds, nodes[0])
    decreases rounds
  {
    if rounds > 0 {
      var next, rest := UnfoldLayers(s, layer, width, rounds);
      NextLayerOk(s, seeds, layer, width, depth);
      NextLayerComplete(s, seeds, layer, width, depth);
      LayersFromComplete(s, seeds, next, width, depth + 1, rounds - 1);
      forall nodes: seq<string>
        ensures Holds(next + rest, nodes) <==> Holds(next, nodes) || Holds(rest, nodes)
      {
        HoldsConcat(next, rest, nodes);
      }
    }
  }

  lemma HoldsConcat(a: seq<Path>, b: seq<Path>, nodes: seq<string>)
    ensures Holds(a + b, nodes) <==> Holds(a, nodes) || Holds(b, nodes)
  {
    forall p ensures p in a + b <==> p in a || p in b { }
  }

  lemma ExhaustiveOverPlainRefs(s: Search, seeds: seq<Seed>, width: nat, maxDepth: nat)
    requires PlainGraph(s.graph) && PlainSeeds(seeds)
    requires |seeds| <= width && NeverCuts(s, SeedLayer(s, seeds, width), width, maxDepth)
    ensures forall nodes: seq<string> :: Holds(BeamPaths(s, seeds, width, maxDepth), nodes) <==>
              SimplePath(s.graph, nodes) && |nodes| <= maxDepth + 1 && FromSeed(seeds, nodes[0])
  {
    var layer := SeedLayer(s, seeds, width);
    SeedLayerOk(s, seeds, width);
    SeedLayerComplete(s, seeds, width);
    LayersFromComplete(s, seeds, layer, width, 0, maxDepth);
    forall nodes: seq<string>
      ensures Holds(BeamPaths(s, seeds, width, maxDepth), nodes) <==>
              Holds(layer, nodes) || Holds(LayersFrom(s, layer, width, maxDepth), nodes)
    {
      HoldsConcat(layer, LayersFrom(s, layer, width, maxDepth), nodes);
    }
  }

  // ── node references ───────────────────────────────────────────────

  const NODE_REF_KINDS := ["event", "entity", "fact", "assertion", "evaluation", "commitment", "episode"]

  /** The characters in which a number is written. */
  const NUMBER_CHARS := "0123456789+-.eInfityNa"

  /** The type of node references: a kind, a colon and a number. */
  ghost predicate IsNodeRef(ref: string) {
    exists kind, number ::
      kind in NODE_REF_KINDS && ref == kind + ":" + number && forall i :: 0 <= i < |number| ==> number[i] in NUMBER_CHARS
  }

  lemma NodeRefsArePlain(ref: string)
    requires IsNodeRef(ref)
    ensures Plain(ref)
  {
    var kind, number :|
      kind in NODE_REF_KINDS && ref == kind + ":" + number && forall i :: 0 <= i < |number| ==> number[i] in NUMBER_CHARS;
    KindsArePlain(kind);
    forall i | 0 <= i < |number| ensures number[i] != SEPARATOR && number[i] != BAR { NumberCharsArePlain(number[i]); }
  }

  lemma KindsArePlain(kind: string)
    requires kind in NODE_REF_KINDS
    ensures Plain(kind)
  {
  }

  lemma NumberCharsArePlain(c: char)
    requires c in NUMBER_CHARS
    ensures c != SEPARATOR && c != BAR
  {
  }

  ghost predicate TypedGraph(g: Graph) {
    forall n, e :: n in g && e in g[n] ==> IsNodeRef(e.to)
  }

  ghost predicate TypedSeeds(seeds: seq<Seed>) {
    forall seed :: seed in seeds ==> IsNodeRef(seed.nodeRef)
  }

  /** When the width is never exceeded, the beam is exhaustive: its node sequences are exactly the simple paths
      from the seeds with at most maxDepth edges. */
  lemma BeamIsExhaustive(s: Search, seeds: seq<Seed>, width: nat, maxDepth: nat)
    requires TypedGraph(s.graph) && TypedSeeds(seeds)
    requires |seeds| <= width && NeverCuts(s, SeedLayer(s, seeds, width), width, maxDepth)
    ensures forall nodes: seq<string> :: Holds(BeamPaths(s, seeds, width, maxDepth), nodes) <==>
              SimplePath(s.graph, nodes) && |nodes| <= maxDepth + 1 && FromSeed(seeds, nodes[0])
  {
    forall n, e | n in s.graph && e in s.graph[n] ensures Plain(e.to) { NodeRefsArePlain(e.to); }
    forall seed | seed in seeds ensures Plain(seed.nodeRef) { NodeRefsArePlain(seed.nodeRef); }
    ExhaustiveOverPlainRefs(s, seeds, width, maxDepth);
  }
}
