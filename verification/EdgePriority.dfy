/** Edge kinds ranked by query intent, and the comparison that orders a node's neighbours. */
module EdgePriority {
  import opened JobTypes
  import opened Sorting

  /** Navigator edge kinds first, memory relation types after them. */
  datatype EdgeKind =
    | Causal | TemporalPrev | TemporalNext | SameEpisode | FactRelation | FactSupport | Participant
    | SemanticSimilar | ConflictOrUpdate | EntityBridge
    | Supports | Triggered | ConflictsWith | DerivedFrom | Supersedes | SurfacedAs | PublishedAs
    | ResolvedBy | DowngradedBy
  {
    predicate MemoryRelation() {
      Supports? || Triggered? || ConflictsWith? || DerivedFrom? || Supersedes? || SurfacedAs? || PublishedAs?
      || ResolvedBy? || DowngradedBy?
    }
  }

  datatype QueryType = EntityQuery | EventQuery | WhyQuery | RelationshipQuery | TimelineQuery | StateQuery | ConflictQuery

  function QueryTypePriority(q: QueryType): seq<EdgeKind> {
    match q
    case EntityQuery => [FactRelation, Participant, FactSupport, SemanticSimilar]
    case EventQuery => [SameEpisode, TemporalPrev, TemporalNext, Causal, FactSupport]
    case WhyQuery => [Causal, FactSupport, FactRelation, TemporalPrev]
    case RelationshipQuery => [FactRelation, FactSupport, Participant, SemanticSimilar]
    case TimelineQuery => [TemporalPrev, TemporalNext, SameEpisode, Causal, FactSupport]
    case StateQuery => [FactRelation, ConflictOrUpdate, FactSupport, TemporalNext]
    case ConflictQuery => [ConflictOrUpdate, FactRelation, FactSupport, Causal, TemporalPrev]
  }

  /** Any table of edge kinds per intent. */
  type Table = QueryType -> seq<EdgeKind>

  /** What the laws of merging need of a table, and the navigator's has. */
  ghost predicate GoodTable(table: Table) {
    forall q: QueryType :: NoDuplicates(table(q)) && |table(q)| >= 4
  }

  // ── merging ───────────────────────────────────────────────────────

  /** `out` extended by the kinds of `more` it does not have yet. */
  function AppendNew(out: seq<EdgeKind>, more: seq<EdgeKind>): (r: seq<EdgeKind>)
    requires NoDuplicates(out)
    ensures out <= r
    ensures NoDuplicates(r)
    ensures forall k :: k in r <==> k in out || k in more
    decreases |more|
  {
    if more == [] then out
    else AppendNew(if more[0] in out then out else out + [more[0]], more[1..])
  }

  function AppendAll(table: Table, out: seq<EdgeKind>, secondaries: seq<QueryType>): (r: seq<EdgeKind>)
    requires NoDuplicates(out)
    ensures out <= r
    ensures NoDuplicates(r)
    ensures forall k :: k in r <==> k in out || exists q :: q in secondaries && k in table(q)
    decreases |secondaries|
  {
    if secondaries == [] then out
    else
      var r := AppendAll(table, AppendNew(out, table(secondaries[0])), secondaries[1..]);
      assert forall q :: q in secondaries <==> q == secondaries[0] || q in secondaries[1..];
      r
  }

  function Merged(table: Table, primary: QueryType, secondaries: seq<QueryType>): seq<EdgeKind> {
    AppendAll(table, AppendNew([], table(primary)), secondaries)
  }

  method AppendKinds(out: seq<EdgeKind>, seen: set<EdgeKind>, kinds: seq<EdgeKind>)
    returns (out': seq<EdgeKind>, seen': set<EdgeKind>)
    requires NoDuplicates(out) && seen == set k | k in out
    ensures out' == AppendNew(out, kinds) && seen' == set k | k in out'
  {
    out', seen' := out, seen;
    for i := 0 to |kinds|
      invariant NoDuplicates(out') && seen' == set k | k in out'
      invariant AppendNew(out', kinds[i..]) == AppendNew(out, kinds)
    {
      AppendStep(out', kinds, i);
      if kinds[i] !in seen' {
        seen' := seen' + {kinds[i]};
        out' := out' + [kinds[i]];
      }
    }
  }

  lemma AppendStep(out: seq<EdgeKind>, kinds: seq<EdgeKind>, i: nat)
    requires NoDuplicates(out) && i < |kinds|
    ensures var out' := if kinds[i] in out then out else out + [kinds[i]];
            && NoDuplicates(out')
            && AppendNew(out, kinds[i..]) == AppendNew(out', kinds[i + 1..])
            && (set k | k in out') == (set k | k in out) + {kinds[i]}
  {
    assert kinds[i..][1..] == kinds[i + 1..];
  }

  method MergedEdgePriority(primary: QueryType, secondaries: seq<QueryType>) returns (out: seq<EdgeKind>)
    ensures out == Merged(QueryTypePriority, primary, secondaries)
  {
    var seen: set<EdgeKind> := {};
    out, seen := AppendKinds([], {}, QueryTypePriority(primary));
    for i := 0 to |secondaries|
      invariant NoDuplicates(out) && seen == set k | k in out
      invariant AppendAll(QueryTypePriority, out, secondaries[i..]) == Merged(QueryTypePriority, primary, secondaries)
    {
      out, seen := AppendKinds(out, seen, QueryTypePriority(secondaries[i]));
      assert secondaries[i..][1..] == secondaries[i + 1..];
    }
  }

  lemma {:induction false} AppendNewDistinct(out: seq<EdgeKind>, more: seq<EdgeKind>)
    requires NoDuplicates(out + more)
    ensures NoDuplicates(out) && AppendNew(out, more) == out + more
    decreases |more|
  {
    assert forall i :: 0 <= i < |out| ==> (out + more)[i] == out[i];
    if more == [] {
      assert out + more == out;
    } else {
      assert (out + more)[|out|] == more[0];
      assert more[0] !in out;
      assert (out + [more[0]]) + more[1..] == out + more;
      AppendNewDistinct(out + [more[0]], more[1..]);
    }
  }

  /** The merged list has no duplicates, is exactly the union of the lists, and starts with the primary one. */
  lemma MergedIsOrderedUnion(table: Table, primary: QueryType, secondaries: seq<QueryType>)
    requires GoodTable(table)
    ensures NoDuplicates(Merged(table, primary, secondaries))
    ensures forall k :: k in Merged(table, primary, secondaries) <==>
              k in table(primary) || exists q :: q in secondaries && k in table(q)
    ensures table(primary) <= Merged(table, primary, secondaries)
    ensures secondaries == [] ==> Merged(table, primary, secondaries) == table(primary)
  {
    assert [] + table(primary) == table(primary);
    AppendNewDistinct([], table(primary));
  }

  lemma PriorityTableIsGood()
    ensures GoodTable(QueryTypePriority)
  {
    forall q: QueryType ensures NoDuplicates(QueryTypePriority(q)) && |QueryTypePriority(q)| >= 4 { }
  }

  // ── scores ────────────────────────────────────────────────────────

  /** indexOf, with the length standing for -1. */
  function IndexIn(kind: EdgeKind, kinds: seq<EdgeKind>): (i: nat)
    ensures i <= |kinds|
    ensures i < |kinds| ==> kinds[i] == kind
    ensures forall j :: 0 <= j < i ==> kinds[j] != kind
    ensures kind in kinds <==> i < |kinds|
  {
    if kinds == [] || kinds[0] == kind then 0 else 1 + IndexIn(kind, kinds[1..])
  }

  const MEMORY_RELATION_FLOOR: real := 0.3
  const UNKNOWN_FLOOR: real := 0.1

  function ScoreIn(kind: EdgeKind, ordered: seq<EdgeKind>): real {
    var index := IndexIn(kind, ordered);
    if index < |ordered| then 1.0 - (index as real) / (|ordered| as real)
    else if kind.MemoryRelation() then MEMORY_RELATION_FLOOR
    else UNKNOWN_FLOOR
  }

  function ScoreOver(table: Table, kind: EdgeKind, q: QueryType, secondaries: seq<QueryType>): real {
    ScoreIn(kind, if secondaries == [] then table(q) else Merged(table, q, secondaries))
  }

  /** The score in the navigator's own table. */
  function EdgePriorityScore(kind: EdgeKind, q: QueryType, secondaries: seq<QueryType>): real {
    ScoreOver(QueryTypePriority, kind, q, secondaries)
  }

  lemma FractionOrder(i: nat, j: nat, n: nat, m: nat)
    requires 0 < n <= m
    ensures (i as real) / (m as real) <= (i as real) / (n as real)
    ensures i < j ==> (i as real) / (m as real) < (j as real) / (m as real)
  {
    var a, x, y := i as real, n as real, m as real;
    assert a == (a / x) * x && a == (a / y) * y;
    if i < j {
      var b := j as real;
      assert b == (b / y) * y;
      assert (b / y - a / y) * y > 0.0;
    }
  }

  /** Within one list, earlier kinds score strictly higher, and the head scores 1. */
  lemma ScoreFollowsOrder(ordered: seq<EdgeKind>, i: nat, j: nat)
    requires NoDuplicates(ordered) && i < j < |ordered|
    ensures ScoreIn(ordered[j], ordered) < ScoreIn(ordered[i], ordered) <= 1.0
    ensures ScoreIn(ordered[0], ordered) == 1.0
  {
    assert IndexIn(ordered[i], ordered) == i && IndexIn(ordered[j], ordered) == j;
    FractionOrder(i, j, |ordered|, |ordered|);
    FractionOrder(0, i, |ordered|, |ordered|);
  }

  lemma IndexInAppend(x: EdgeKind, s: seq<EdgeKind>, t: seq<EdgeKind>)
    ensures IndexIn(x, s + t) == if x in s then IndexIn(x, s) else |s| + IndexIn(x, t)
  {
    var i := if x in s then IndexIn(x, s) else |s| + IndexIn(x, t);
    assert forall j :: 0 <= j < |s| ==> (s + t)[j] == s[j];
    assert forall j :: |s| <= j < |s + t| ==> (s + t)[j] == t[j - |s|];
    assert forall j :: 0 <= j < i ==> (s + t)[j] != x;
    assert i < |s + t| ==> (s + t)[i] == x;
  }

  /** All the lists one after the other. */
  function Concatenated(table: Table, secondaries: seq<QueryType>): seq<EdgeKind> {
    if secondaries == [] then [] else table(secondaries[0]) + Concatenated(table, secondaries[1..])
  }

  lemma {:induction false} AppendingComposes(out: seq<EdgeKind>, s: seq<EdgeKind>, t: seq<EdgeKind>)
    requires NoDuplicates(out)
    ensures AppendNew(AppendNew(out, s), t) == AppendNew(out, s + t)
    decreases |s|
  {
    if s == [] {
      assert s + t == t;
    } else {
      assert (s + t)[0] == s[0] && (s + t)[1..] == s[1..] + t;
      AppendingComposes(if s[0] in out then out else out + [s[0]], s[1..], t);
    }
  }

  lemma {:induction false} AppendAllIsAppendNew(table: Table, out: seq<EdgeKind>, secondaries: seq<QueryType>)
    requires NoDuplicates(out)
    ensures AppendAll(table, out, secondaries) == AppendNew(out, Concatenated(table, secondaries))
    decreases |secondaries|
  {
    if secondaries != [] {
      var first, rest := table(secondaries[0]), secondaries[1..];
      AppendAllIsAppendNew(table, AppendNew(out, first), rest);
      AppendingComposes(out, first, Concatenated(table, rest));
    }
  }

  lemma {:induction false} FirstSeenOrder(out: seq<EdgeKind>, more: seq<EdgeKind>, a: EdgeKind, b: EdgeKind)
    requires NoDuplicates(out) && a in out + more && b in out + more
    ensures IndexIn(a, AppendNew(out, more)) < IndexIn(b, AppendNew(out, more)) <==> IndexIn(a, out + more) < IndexIn(b, out + more)
    decreases |more|
  {
    if more == [] {
      assert out + more == out;
    } else {
      var m, rest := more[0], more[1..];
      assert more == [m] + rest;
      if m in out {
        ForgetKnown(out, m, rest, a);
        ForgetKnown(out, m, rest, b);
        FirstSeenOrder(out, rest, a, b);
      } else {
        assert out + more == out + [m] + rest;
        FirstSeenOrder(out + [m], rest, a, b);
      }
    }
  }

  lemma ForgetKnown(out: seq<EdgeKind>, m: EdgeKind, rest: seq<EdgeKind>, x: EdgeKind)
    requires m in out && x in out + ([m] + rest)
    ensures x in out + rest
    ensures IndexIn(x, out + ([m] + rest)) == IndexIn(x, out + rest) + if x in out then 0 else 1
    ensures IndexIn(x, out + rest) < |out| <==> x in out
  {
    IndexInAppend(x, out, [m] + rest);
    IndexInAppend(x, out, rest);
    IndexInAppend(x, [m], rest);
  }

  lemma MergeOrder(own: seq<EdgeKind>, more: seq<EdgeKind>, a: EdgeKind, b: EdgeKind)
    requires var merged := AppendNew(AppendNew([], own), more); a in merged && b in merged
    ensures var merged := AppendNew(AppendNew([], own), more);
            && a in own + more && b in own + more
            && (IndexIn(a, merged) < IndexIn(b, merged) <==> IndexIn(a, own + more) < IndexIn(b, own + more))
  {
    AppendingComposes([], own, more);
    assert [] + (own + more) == own + more;
    FirstSeenOrder([], own + more, a, b);
  }

  /** Kinds are ranked by where they are first named when primary and secondary lists are read one after the
      other; with the union this determines the merged list. */
  lemma MergedFirstSeenOrder(table: Table, primary: QueryType, secondaries: seq<QueryType>, a: EdgeKind, b: EdgeKind)
    requires a in Merged(table, primary, secondaries) && b in Merged(table, primary, secondaries)
    ensures var all := table(primary) + Concatenated(table, secondaries);
            && a in all && b in all
            && (IndexIn(a, Merged(table, primary, secondaries)) < IndexIn(b, Merged(table, primary, secondaries))
                <==> IndexIn(a, all) < IndexIn(b, all))
  {
    AppendAllIsAppendNew(table, AppendNew([], table(primary)), secondaries);
    MergeOrder(table(primary), Concatenated(table, secondaries), a, b);
  }

  /** Extending a list never lowers the score of what it already ranks. */
  lemma ExtendingRaises(own: seq<EdgeKind>, merged: seq<EdgeKind>, i: nat)
    requires NoDuplicates(merged) && own <= merged && i < |own|
    ensures ScoreIn(own[i], merged) >= ScoreIn(own[i], own)
    ensures IndexIn(own[i], merged) == i
  {
    assert forall j :: 0 <= j < |own| ==> merged[j] == own[j];
    assert IndexIn(own[i], merged) == i && IndexIn(own[i], own) == i;
    FractionOrder(i, i, |own|, |merged|);
  }

  /** Secondary intents never lower the score of a primary kind, keep the head at 1 and keep the primary order. */
  lemma SecondariesKeepPrimary(table: Table, q: QueryType, secondaries: seq<QueryType>, i: nat, j: nat)
    requires GoodTable(table)
    requires i < j < |table(q)|
    ensures var ki, kj := table(q)[i], table(q)[j];
            && ScoreOver(table, ki, q, secondaries) >= ScoreOver(table, ki, q, [])
            && ScoreOver(table, kj, q, secondaries) >= ScoreOver(table, kj, q, [])
            && ScoreOver(table, ki, q, secondaries) > ScoreOver(table, kj, q, secondaries)
            && ScoreOver(table, table(q)[0], q, secondaries) == 1.0
  {
    var own, merged := table(q), Merged(table, q, secondaries);
    MergedIsOrderedUnion(table, q, secondaries);
    ExtendingRaises(own, merged, i);
    ExtendingRaises(own, merged, j);
    ScoreFollowsOrder(merged, i, j);
  }

  /** A kind that only a secondary intent names ranks strictly below every primary kind. */
  lemma AppendedBelowPrimary(table: Table, q: QueryType, secondaries: seq<QueryType>, primaryKind: EdgeKind, appended: EdgeKind)
    requires GoodTable(table)
    requires primaryKind in table(q)
    requires appended in Merged(table, q, secondaries) && appended !in table(q)
    ensures ScoreOver(table, appended, q, secondaries) < ScoreOver(table, primaryKind, q, secondaries)
  {
    var own, merged := table(q), Merged(table, q, secondaries);
    MergedIsOrderedUnion(table, q, secondaries);
    InPrefixComesFirst(own, merged, primaryKind, appended);
    ScoreFollowsOrder(merged, IndexIn(primaryKind, merged), IndexIn(appended, merged));
  }

  lemma InPrefixComesFirst(own: seq<EdgeKind>, merged: seq<EdgeKind>, a: EdgeKind, b: EdgeKind)
    requires NoDuplicates(merged) && own <= merged && a in own && b in merged && b !in own
    ensures IndexIn(a, merged) < IndexIn(b, merged) < |merged|
    ensures merged[IndexIn(a, merged)] == a && merged[IndexIn(b, merged)] == b
  {
    var i, j := IndexIn(a, own), IndexIn(b, merged);
    assert merged[i] == own[i] == a;
    assert forall n :: 0 <= n < |own| ==> merged[n] == own[n] && own[n] in own;
  }

  /** Appended kinds are said to stay above the floor of memory relations. A kind does exactly while its place
      is within the first 7/10 of the merged list; so the last one never does once anything is appended. */
  lemma AppendedAboveFloorExactly(table: Table, q: QueryType, secondaries: seq<QueryType>, kind: EdgeKind)
    requires GoodTable(table)
    requires kind in Merged(table, q, secondaries) && secondaries != []
    ensures ScoreOver(table, kind, q, secondaries) >= MEMORY_RELATION_FLOOR
            <==> 10 * IndexIn(kind, Merged(table, q, secondaries)) <= 7 * |Merged(table, q, secondaries)|
    ensures var n := |Merged(table, q, secondaries)|;
            IndexIn(kind, Merged(table, q, secondaries)) == n - 1 && n > |table(q)|
            ==> ScoreOver(table, kind, q, secondaries) < MEMORY_RELATION_FLOOR
  {
    var merged := Merged(table, q, secondaries);
    AboveFloor(IndexIn(kind, merged), |merged|);
  }

  lemma AboveFloor(i: nat, n: nat)
    requires n > 0
    ensures 1.0 - (i as real) / (n as real) >= MEMORY_RELATION_FLOOR <==> 10 * i <= 7 * n
  {
    var f := (i as real) / (n as real);
    assert f * (n as real) == i as real;
    assert (10 * i) as real == 10.0 * (i as real) && (7 * n) as real == 7.0 * (n as real);
    if f <= 0.7 {
      assert f * (n as real) <= 0.7 * (n as real);
    } else {
      assert f * (n as real) > 0.7 * (n as real);
    }
  }

  // ── comparing neighbours ──────────────────────────────────────────

  datatype Edge = Edge(from: string, to: string, kind: EdgeKind, weight: real, timestamp: Option<real>)

  /** Multipliers per kind from the retrieval strategy and, when it is consumed, from the query plan. */
  datatype Weights = Weights(strategy: map<EdgeKind, real>, plan: Option<map<EdgeKind, real>>)

  function EffectiveEdgeMultiplier(kind: EdgeKind, w: Weights): real {
    var strategyMultiplier := if kind in w.strategy then w.strategy[kind] else 1.0;
    if w.plan.None? then strategyMultiplier
    else strategyMultiplier * (if kind in w.plan.value then w.plan.value[kind] else 1.0)
  }

  function Timestamp(e: Edge): real {
    if e.timestamp.Some? then e.timestamp.value else 0.0
  }

  /** What the comparator looks at, in order. */
  datatype Rank = Rank(score: real, weight: real, time: real)

  function RankOf(e: Edge, score: EdgeKind -> real, w: Weights): Rank {
    Rank(score(e.kind), e.weight * EffectiveEdgeMultiplier(e.kind, w), Timestamp(e))
  }

  /** Negative, zero or positive, as a JavaScript comparator. */
  function CompareRanks(a: Rank, b: Rank): real {
    if a.score != b.score then b.score - a.score
    else if a.weight != b.weight then b.weight - a.weight
    else b.time - a.time
  }

  function CompareBy(score: EdgeKind -> real, w: Weights, a: Edge, b: Edge): real {
    CompareRanks(RankOf(a, score, w), RankOf(b, score, w))
  }

  /** The priority of each kind for the given intents. */
  function PriorityFor(q: QueryType, secondaries: seq<QueryType>): EdgeKind -> real {
    kind => EdgePriorityScore(kind, q, secondaries)
  }

  function CompareNeighborEdges(a: Edge, b: Edge, q: QueryType, secondaries: seq<QueryType>, w: Weights): real {
    CompareBy(PriorityFor(q, secondaries), w, a, b)
  }

  lemma RanksAreOrdered(a: Rank, b: Rank, c: Rank)
    ensures CompareRanks(a, b) == -CompareRanks(b, a)
    ensures CompareRanks(a, b) <= 0.0 && CompareRanks(b, c) <= 0.0 ==> CompareRanks(a, c) <= 0.0
    ensures CompareRanks(a, b) == 0.0 <==> a == b
  {
  }

  /** The comparator is a total preorder, for any scores, weights and plan, so sorting by it is well defined; edges
      compare equal exactly when score, weighted weight and timestamp all agree. */
  lemma OrderIsTotal(score: EdgeKind -> real, w: Weights)
    ensures TotalPreorder((a: Edge, b: Edge) => CompareBy(score, w, a, b) <= 0.0)
    ensures forall a, b :: CompareBy(score, w, a, b) == 0.0 <==> RankOf(a, score, w) == RankOf(b, score, w)
  {
    forall a: Edge, b: Edge, c: Edge
      ensures CompareBy(score, w, a, b) == -CompareBy(score, w, b, a)
      ensures CompareBy(score, w, a, b) <= 0.0 && CompareBy(score, w, b, c) <= 0.0 ==> CompareBy(score, w, a, c) <= 0.0
      ensures CompareBy(score, w, a, b) == 0.0 <==> RankOf(a, score, w) == RankOf(b, score, w)
    {
      RanksAreOrdered(RankOf(a, score, w), RankOf(b, score, w), RankOf(c, score, w));
    }
  }

  /** The higher score first, then the greater weight, then the later time. */
  predicate Preferred(scoreA: real, scoreB: real, weightA: real, weightB: real, timeA: real, timeB: real) {
    scoreA > scoreB || (scoreA == scoreB && (weightA > weightB || (weightA == weightB && timeA > timeB)))
  }

  lemma RanksPreferred(a: Rank, b: Rank)
    ensures CompareRanks(a, b) < 0.0 <==> Preferred(a.score, b.score, a.weight, b.weight, a.time, b.time)
  {
  }

  /** The order itself: the kind that scores higher first, then the heavier edge, then the newer one, an edge without a
      time counting as time zero. */
  lemma EdgesPreferred(score: EdgeKind -> real, w: Weights, a: Edge, b: Edge)
    ensures CompareBy(score, w, a, b) < 0.0
            <==> Preferred(score(a.kind), score(b.kind),
                           a.weight * EffectiveEdgeMultiplier(a.kind, w), b.weight * EffectiveEdgeMultiplier(b.kind, w),
                           if a.timestamp.Some? then a.timestamp.value else 0.0, if b.timestamp.Some? then b.timestamp.value else 0.0)
  {
    RanksPreferred(RankOf(a, score, w), RankOf(b, score, w));
  }
}
