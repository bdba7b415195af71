/** The truncating context compactor: evict flushed messages, oldest first, until the rest fits the budget. */
module Compactors {

  datatype Role = System | User | Assistant | Tool

  /** `inputJson` is the tool input as JSON text. */
  datatype Block = Text(text: string) | ToolUse(inputJson: string) | ToolResult(content: string)

  datatype Content = Plain(text: string) | Blocks(blocks: seq<Block>)

  datatype Message = Message(role: Role, content: Content)

  datatype Indexed = Indexed(index: int, message: Message)

  // ── estimates ─────────────────────────────────────────────────────

  /** A quarter of the length, rounded up, and at least one. */
  function EstimateText(text: string): (r: nat)
    ensures r >= 1 && 4 * r >= |text| && (r > 1 ==> 4 * (r - 1) < |text|)
  {
    var quarter := (|text| + 3) / 4;
    if quarter < 1 then 1 else quarter
  }

  function EstimateBlock(block: Block): nat {
    match block
    case Text(text) => EstimateText(text)
    case ToolResult(content) => EstimateText(content)
    case ToolUse(inputJson) => EstimateText(inputJson)
  }

  function EstimateBlocks(blocks: seq<Block>): nat {
    if blocks == [] then 0 else EstimateBlocks(blocks[..|blocks| - 1]) + EstimateBlock(blocks[|blocks| - 1])
  }

  function EstimateMessage(m: Message): nat {
    match m.content
    case Plain(text) => EstimateText(text)
    case Blocks(blocks) => EstimateBlocks(blocks)
  }

  function EstimateAll(ms: seq<Indexed>): nat {
    if ms == [] then 0 else EstimateMessage(ms[0].message) + EstimateAll(ms[1..])
  }

  /** What a message costs: its text, or its blocks together, each by the text it carries; no blocks cost nothing, and
      who wrote it does not matter. */
  lemma {:induction false} MessageCost(role: Role, text: string, a: seq<Block>, b: seq<Block>)
    ensures EstimateMessage(Message(role, Plain(text))) == EstimateText(text)
    ensures forall one :: one in {Text(text), ToolUse(text), ToolResult(text)} ==>
              EstimateMessage(Message(role, Blocks([one]))) == EstimateText(text)
    ensures EstimateMessage(Message(role, Blocks([]))) == 0
    ensures EstimateMessage(Message(role, Blocks(a + b)))
            == EstimateMessage(Message(role, Blocks(a))) + EstimateMessage(Message(role, Blocks(b)))
  {
    forall one: Block ensures EstimateBlocks([one]) == EstimateBlock(one) { assert [one][..0] == []; }
    BlocksAddUp(a, b);
  }

  lemma {:induction false} BlocksAddUp(a: seq<Block>, b: seq<Block>)
    ensures EstimateBlocks(a + b) == EstimateBlocks(a) + EstimateBlocks(b)
  {
    if b == [] {
      assert a + b == a;
    } else {
      var n := |b| - 1;
      assert (a + b)[..|a + b| - 1] == a + b[..n];
      BlocksAddUp(a, b[..n]);
    }
  }

  // ── what is evicted ───────────────────────────────────────────────

  predicate Evictable(e: Indexed, boundary: int) {
    e.message.role != System && e.index <= boundary
  }

  function Index(ms: seq<Message>): seq<Indexed> {
    seq(|ms|, i requires 0 <= i < |ms| => Indexed(i, ms[i]))
  }

  function CountEvictable(ms: seq<Indexed>, boundary: int): nat {
    if ms == [] then 0 else (if Evictable(ms[0], boundary) then 1 else 0) + CountEvictable(ms[1..], boundary)
  }

  /** The first k evictable messages dropped, everything else in place. */
  function Without(ms: seq<Indexed>, boundary: int, k: nat): seq<Indexed> {
    if ms == [] then []
    else if k > 0 && Evictable(ms[0], boundary) then Without(ms[1..], boundary, k - 1)
    else [ms[0]] + Without(ms[1..], boundary, k)
  }

  lemma {:induction false} WithoutNothing(ms: seq<Indexed>, boundary: int)
    ensures Without(ms, boundary, 0) == ms
  {
    if ms != [] { WithoutNothing(ms[1..], boundary); }
  }

  lemma {:induction false} WithoutCounts(ms: seq<Indexed>, boundary: int, k: nat)
    requires k <= CountEvictable(ms, boundary)
    ensures CountEvictable(Without(ms, boundary, k), boundary) == CountEvictable(ms, boundary) - k
    ensures |Without(ms, boundary, k)| == |ms| - k
  {
    if ms != [] { WithoutCounts(ms[1..], boundary, if k > 0 && Evictable(ms[0], boundary) then k - 1 else k); }
  }

  /** Splicing out the first evictable message is dropping one more. */
  lemma {:induction false} SpliceIsOneMore(ms: seq<Indexed>, boundary: int, k: nat, at: nat)
    requires var cut := Without(ms, boundary, k);
             at < |cut| && Evictable(cut[at], boundary) && forall j :: 0 <= j < at ==> !Evictable(cut[j], boundary)
    ensures var cut := Without(ms, boundary, k);
            cut[..at] + cut[at + 1..] == Without(ms, boundary, k + 1)
  {
    var cut := Without(ms, boundary, k);
    if k > 0 && Evictable(ms[0], boundary) {
      SpliceIsOneMore(ms[1..], boundary, k - 1, at);
    } else {
      var rest := Without(ms[1..], boundary, k);
      assert cut == [ms[0]] + rest;
      if at == 0 {
        assert cut[..0] + cut[1..] == rest;
      } else {
        assert cut[0] == ms[0];
        forall j | 0 <= j < at - 1 ensures !Evictable(rest[j], boundary) { assert rest[j] == cut[j + 1]; }
        assert rest[at - 1] == cut[at];
        SpliceIsOneMore(ms[1..], boundary, k, at - 1);
        SpliceBehindHead(ms[0], rest, at);
      }
    }
  }

  lemma SpliceBehindHead(head: Indexed, rest: seq<Indexed>, at: nat)
    requires 0 < at <= |rest|
    ensures var whole := [head] + rest;
            whole[..at] + whole[at + 1..] == [head] + (rest[..at - 1] + rest[at..])
  {
  }

  lemma {:induction false} NoneMeansZero(ms: seq<Indexed>, boundary: int)
    ensures CountEvictable(ms, boundary) == 0 <==> forall e :: e in ms ==> !Evictable(e, boundary)
  {
    if ms != [] {
      NoneMeansZero(ms[1..], boundary);
      assert forall e :: e in ms <==> e == ms[0] || e in ms[1..];
    }
  }

  /** Dropping fewer keeps at least as much, so the first count that fits is the least. */
  lemma {:induction false} FewerWeighMore(ms: seq<Indexed>, boundary: int, j: nat, k: nat)
    requires j <= k
    ensures EstimateAll(Without(ms, boundary, j)) >= EstimateAll(Without(ms, boundary, k))
  {
    if ms != [] {
      if k > 0 && Evictable(ms[0], boundary) {
        if j > 0 {
          FewerWeighMore(ms[1..], boundary, j - 1, k - 1);
        } else {
          FewerWeighMore(ms[1..], boundary, 0, k - 1);
        }
      } else {
        FewerWeighMore(ms[1..], boundary, j, k);
      }
    }
  }

  /** k is how many a positive budget costs: the least number after which the rest fits, or all of them when
      even that does not fit. */
  ghost predicate EvictsExactly(ms: seq<Indexed>, boundary: int, budget: int, k: nat) {
    && k <= CountEvictable(ms, boundary)
    && (EstimateAll(Without(ms, boundary, k)) <= budget || k == CountEvictable(ms, boundary))
    && forall j :: 0 <= j < k ==> EstimateAll(Without(ms, boundary, j)) > budget
  }

  lemma EvictionIsUnique(ms: seq<Indexed>, boundary: int, budget: int, j: nat, k: nat)
    requires EvictsExactly(ms, boundary, budget, j) && EvictsExactly(ms, boundary, budget, k)
    ensures j == k
  {
  }

  function Messages(ms: seq<Indexed>): seq<Message> {
    seq(|ms|, i requires 0 <= i < |ms| => ms[i].message)
  }

  /** The result of compacting: the first k evictable messages are gone, with k as the budget demands. */
  ghost predicate CompactsTo(messages: seq<Message>, boundary: int, budget: int, k: nat, result: seq<Message>) {
    && result == Messages(Without(Index(messages), boundary, k))
    && if budget <= 0 then k == CountEvictable(Index(messages), boundary)
       else EvictsExactly(Index(messages), boundary, budget, k)
  }

  /** The budget leaves no choice. */
  lemma CompactionIsUnique(messages: seq<Message>, boundary: int, budget: int, j: nat, k: nat, a: seq<Message>, b: seq<Message>)
    requires CompactsTo(messages, boundary, budget, j, a) && CompactsTo(messages, boundary, budget, k, b)
    ensures j == k && a == b
  {
    if budget > 0 { EvictionIsUnique(Index(messages), boundary, budget, j, k); }
  }

  function Kept(ms: seq<Indexed>, boundary: int): seq<Indexed> {
    if ms == [] then [] else (if Evictable(ms[0], boundary) then [] else [ms[0]]) + Kept(ms[1..], boundary)
  }

  /** A budget of zero or less drops all that a positive one could ever drop. */
  lemma {:induction false} KeptIsWithoutAll(ms: seq<Indexed>, boundary: int)
    ensures Kept(ms, boundary) == Without(ms, boundary, CountEvictable(ms, boundary))
  {
    if ms != [] {
      KeptIsWithoutAll(ms[1..], boundary);
    }
  }

  /** Dropping the first k evictable messages: the messages up to some point lose all their evictable ones,
      k of them, and from there on nothing is touched. */
  lemma {:induction false} WithoutTakesFromFront(ms: seq<Indexed>, boundary: int, k: nat) returns (point: nat)
    requires k <= CountEvictable(ms, boundary)
    ensures point <= |ms| && CountEvictable(ms[..point], boundary) == k
    ensures Without(ms, boundary, k) == Kept(ms[..point], boundary) + ms[point..]
  {
    if k == 0 {
      point := 0;
      WithoutNothing(ms, boundary);
    } else {
      var p := WithoutTakesFromFront(ms[1..], boundary, if Evictable(ms[0], boundary) then k - 1 else k);
      point := p + 1;
      assert ms[..point][1..] == ms[1..][..p] && ms[point..] == ms[1..][p..];
    }
  }

  /** What remains is a subsequence in the old order, and everything protected is in it. */
  lemma {:induction false} WithoutKeepsOrder(ms: seq<Indexed>, boundary: int, k: nat) returns (from: seq<nat>)
    ensures Picks(ms, from, Without(ms, boundary, k))
    ensures AllProtected(ms, boundary, from, 0) && DropsFirst(ms, boundary, k, from)
  {
    from := [];
    if ms != [] {
      if k > 0 && Evictable(ms[0], boundary) {
        var rest := WithoutKeepsOrder(ms[1..], boundary, k - 1);
        from := Shifted(rest);
        ShiftedPicks(ms, rest, Without(ms[1..], boundary, k - 1), boundary);
        ShiftedPositions(ms, boundary, k, rest);
      } else {
        var rest := WithoutKeepsOrder(ms[1..], boundary, k);
        from := [0] + Shifted(rest);
        ShiftedPicks(ms, rest, Without(ms[1..], boundary, k), boundary);
        HeadPicks(ms, Shifted(rest), Without(ms[1..], boundary, k), boundary);
        ShiftedPositions(ms, boundary, k, rest);
      }
    }
  }

  /** `cut` is what stands in `ms` at the increasing positions `from`. */
  ghost predicate Picks(ms: seq<Indexed>, from: seq<nat>, cut: seq<Indexed>) {
    && |from| == |cut|
    && (forall i :: 0 <= i < |from| ==> from[i] < |ms| && cut[i] == ms[from[i]])
    && (forall i, j :: 0 <= i < j < |from| ==> from[i] < from[j])
  }

  ghost predicate AllProtected(ms: seq<Indexed>, boundary: int, from: seq<nat>, start: nat) {
    forall i :: start <= i < |ms| && !Evictable(ms[i], boundary) ==> i in from
  }

  function Shifted(from: seq<nat>): seq<nat> {
    seq(|from|, i requires 0 <= i < |from| => from[i] + 1)
  }

  lemma ShiftedPicks(ms: seq<Indexed>, from: seq<nat>, cut: seq<Indexed>, boundary: int)
    requires ms != [] && Picks(ms[1..], from, cut) && AllProtected(ms[1..], boundary, from, 0)
    ensures Picks(ms, Shifted(from), cut) && AllProtected(ms, boundary, Shifted(from), 1)
    ensures forall i :: 0 <= i < |from| ==> Shifted(from)[i] >= 1
  {
    forall i | 1 <= i < |ms| && !Evictable(ms[i], boundary) ensures i in Shifted(from) {
      assert ms[1..][i - 1] == ms[i];
      var j :| 0 <= j < |from| && from[j] == i - 1;
      assert Shifted(from)[j] == i;
    }
  }

  lemma HeadPicks(ms: seq<Indexed>, from: seq<nat>, cut: seq<Indexed>, boundary: int)
    requires ms != [] && Picks(ms, from, cut) && AllProtected(ms, boundary, from, 1)
    requires forall i :: 0 <= i < |from| ==> from[i] >= 1
    ensures Picks(ms, [0] + from, [ms[0]] + cut) && AllProtected(ms, boundary, [0] + from, 0)
  {
    var all := [0] + from;
    assert all[0] == 0;
    forall i | 0 < i < |ms| && !Evictable(ms[i], boundary) ensures i in all {
      assert i in from;
    }
  }

  // ── the outcome in terms of the messages ──────────────────────────

  /** What is dropped is evictable and stands in front of all evictable messages that stay; dropping none drops
      nothing, and dropping as many as there are leaves none. */
  ghost predicate DropsFirst(ms: seq<Indexed>, boundary: int, k: nat, from: seq<nat>) {
    && (forall p :: 0 <= p < |ms| && p !in from ==> Evictable(ms[p], boundary))
    && (forall p, q :: 0 <= p < |ms| && 0 <= q < |ms| && p !in from && q in from && Evictable(ms[q], boundary) ==> p < q)
    && (k == 0 ==> forall p :: 0 <= p < |ms| ==> p in from)
    && (k >= CountEvictable(ms, boundary) ==> forall q :: 0 <= q < |ms| && q in from ==> !Evictable(ms[q], boundary))
  }

  lemma InShifted(from: seq<nat>, p: int)
    ensures p in Shifted(from) <==> p >= 1 && p - 1 in from
    ensures p in [0] + Shifted(from) <==> p == 0 || (p >= 1 && p - 1 in from)
  {
    if p >= 1 && p - 1 in from {
      var j :| 0 <= j < |from| && from[j] == p - 1;
      assert Shifted(from)[j] == p && ([0] + Shifted(from))[j + 1] == p;
    }
    if p in Shifted(from) {
      var j :| 0 <= j < |from| && Shifted(from)[j] == p;
      assert from[j] == p - 1;
    }
    assert p in [0] + Shifted(from) <==> p == 0 || p in Shifted(from);
  }

  lemma ShiftedPositions(ms: seq<Indexed>, boundary: int, k: nat, rest: seq<nat>)
    requires ms != []
    requires var drop := k > 0 && Evictable(ms[0], boundary);
             DropsFirst(ms[1..], boundary, if drop then k - 1 else k, rest)
    ensures var drop := k > 0 && Evictable(ms[0], boundary);
            DropsFirst(ms, boundary, k, if drop then Shifted(rest) else [0] + Shifted(rest))
  {
    var drop := k > 0 && Evictable(ms[0], boundary);
    var from := if drop then Shifted(rest) else [0] + Shifted(rest);
    forall p | 0 <= p < |ms| ensures p in from <==> (p == 0 && !drop) || (p >= 1 && p - 1 in rest) { InShifted(rest, p); }
    assert forall p :: 1 <= p < |ms| ==> ms[p] == ms[1..][p - 1];
  }

  /** A message the compactor must keep: a system message, or one behind the boundary. */
  predicate Protected(messages: seq<Message>, boundary: int, p: nat)
    requires p < |messages|
  {
    messages[p].role == System || p > boundary
  }

  function TotalCost(messages: seq<Message>): nat {
    if messages == [] then 0 else EstimateMessage(messages[0]) + TotalCost(messages[1..])
  }

  lemma {:induction false} CostOfMessages(ms: seq<Indexed>)
    ensures EstimateAll(ms) == TotalCost(Messages(ms))
  {
    if ms != [] {
      CostOfMessages(ms[1..]);
      assert Messages(ms)[1..] == Messages(ms[1..]);
    }
  }

  /** Every result keeps the order and every protected message, and drops oldest first. Without a positive budget only
      protected messages stay; with one, what stays fits it or is all protected, and any earlier stop would not fit. */
  lemma CompactionExactly(messages: seq<Message>, boundary: int, budget: int, k: nat, result: seq<Message>)
    returns (from: seq<nat>)
    requires CompactsTo(messages, boundary, budget, k, result)
    ensures |from| == |result| && forall i :: 0 <= i < |from| ==> from[i] < |messages| && result[i] == messages[from[i]]
    ensures forall i, j :: 0 <= i < j < |from| ==> from[i] < from[j]
    ensures forall p :: 0 <= p < |messages| && Protected(messages, boundary, p) ==> p in from
    ensures forall p, q :: 0 <= p < |messages| && 0 <= q < |messages| && p !in from && q in from ==>
              Protected(messages, boundary, q) || p < q
    ensures budget <= 0 ==> forall q :: 0 <= q < |messages| && q in from ==> Protected(messages, boundary, q)
    ensures budget > 0 && TotalCost(result) > budget ==>
              forall q :: 0 <= q < |messages| && q in from ==> Protected(messages, boundary, q)
    ensures budget > 0 && TotalCost(messages) <= budget ==> result == messages
  {
    var ms := Index(messages);
    from := WithoutKeepsOrder(ms, boundary, k);
    assert forall p :: 0 <= p < |messages| ==> (Protected(messages, boundary, p) <==> !Evictable(ms[p], boundary));
    CostOfMessages(Without(ms, boundary, k));
    CostOfMessages(ms);
    assert Messages(ms) == messages;
    WithoutNothing(ms, boundary);
  }

  // ── the object ────────────────────────────────────────────────────

  class TruncateCompactor {
    var flushBoundary: int

    constructor ()
      ensures flushBoundary == -1
    {
      flushBoundary := -1;
    }

    method SetFlushBoundary(recordIndex: int)
      modifies this
      ensures flushBoundary == recordIndex
    {
      flushBoundary := recordIndex;
    }

    method EstimateBudget(ms: seq<Indexed>) returns (total: nat)
      ensures total == EstimateAll(ms)
    {
      total := 0;
      var i := 0;
      while i < |ms|
        invariant 0 <= i <= |ms| && total + EstimateAll(ms[i..]) == EstimateAll(ms)
      {
        total := total + EstimateMessage(ms[i].message);
        i := i + 1;
      }
    }

    method FindEvictable(ms: seq<Indexed>) returns (at: int)
      ensures at < 0 <==> forall e :: e in ms ==> !Evictable(e, flushBoundary)
      ensures at >= 0 ==> at < |ms| && Evictable(ms[at], flushBoundary)
                          && forall j :: 0 <= j < at ==> !Evictable(ms[j], flushBoundary)
    {
      at := 0;
      while at < |ms|
        invariant 0 <= at <= |ms| && forall j :: 0 <= j < at ==> !Evictable(ms[j], flushBoundary)
      {
        if Evictable(ms[at], flushBoundary) {
          return;
        }
        at := at + 1;
      }
      at := -1;
    }

    /** A budget that is not positive drops every evictable message; a positive one drops the first k. */
    method Compact(messages: seq<Message>, budget: int) returns (result: seq<Message>)
      ensures exists k :: CompactsTo(messages, flushBoundary, budget, k, result)
    {
      var all := Index(messages);
      if budget <= 0 {
        KeptIsWithoutAll(all, flushBoundary);
        result := Messages(Kept(all, flushBoundary));
        assert CompactsTo(messages, flushBoundary, budget, CountEvictable(all, flushBoundary), result);
        return;
      }
      var retained := all;
      ghost var k: nat := 0;
      WithoutNothing(all, flushBoundary);
      var estimate := EstimateBudget(retained);
      while estimate > budget
        invariant estimate == EstimateAll(retained)
        invariant k <= CountEvictable(all, flushBoundary) && retained == Without(all, flushBoundary, k)
        invariant forall j :: 0 <= j < k ==> EstimateAll(Without(all, flushBoundary, j)) > budget
        decreases |retained|
      {
        var at := FindEvictable(retained);
        WithoutCounts(all, flushBoundary, k);
        NoneMeansZero(retained, flushBoundary);
        if at < 0 {
          break;
        }
        assert retained[at] in retained;
        SpliceIsOneMore(all, flushBoundary, k, at);
        retained := retained[..at] + retained[at + 1..];
        k := k + 1;
        estimate := EstimateBudget(retained);
      }
      result := Messages(retained);
      assert CompactsTo(messages, flushBoundary, budget, k, result);
    }
  }
}
