/** Concurrency keys are strings; caps are looked up by key, and session keys derive a global key. */
module ConcurrencyKeys {
  import opened JobTypes

  const CONCURRENCY_KEY_CAPS: map<string, int> := map[
    "search.rebuild:global" := 1,
    "memory.organize:global" := 2,
    "maintenance.replay_projection:global" := 1,
    "maintenance.rebuild_derived:global" := 1,
    "maintenance.full:global" := 1,
    "cognition.thinker:session:{sessionId}" := 2,
    "cognition.thinker:global" := 4]

  const THINKER_GLOBAL := "cognition.thinker:global"
  const THINKER_SESSION := "cognition.thinker:session:"
  const SESSION_SEGMENT := ":session:"
  const DEFAULT_CAP := 1

  /** Caps and derived keys as the claim transaction consults them. */
  datatype CapPolicy = CapPolicy(cap: string -> int, globalKey: string -> Option<string>)

  predicate OccursAt(s: string, pat: string, i: nat) {
    i + |pat| <= |s| && s[i..i + |pat|] == pat
  }

  /** `s.indexOf(pat)` searching from `from`; None stands for -1. */
  function IndexOf(s: string, pat: string, from: nat): (r: Option<nat>)
    ensures r.Some? ==> from <= r.value && OccursAt(s, pat, r.value)
    ensures forall i: nat :: from <= i && (r.Some? ==> i < r.value) ==> !OccursAt(s, pat, i)
    decreases |s| - from
  {
    if from > |s| then None
    else if OccursAt(s, pat, from) then Some(from)
    else if from == |s| then None
    else IndexOf(s, pat, from + 1)
  }

  function DeriveGlobalConcurrencyKey(key: string): Option<string> {
    var at := IndexOf(key, SESSION_SEGMENT, 0);
    if at.None? then None
    else
      var globalKey := key[..at.value] + ":global";
      if globalKey in CONCURRENCY_KEY_CAPS then Some(globalKey) else None
  }

  function ConcurrencyCap(thinkerGlobalCap: Option<int>, key: string): int {
    if key == THINKER_GLOBAL && thinkerGlobalCap.Some? then thinkerGlobalCap.value
    else if key in CONCURRENCY_KEY_CAPS then CONCURRENCY_KEY_CAPS[key]
    else DEFAULT_CAP
  }

  function PgPolicy(thinkerGlobalCap: Option<int>): CapPolicy {
    CapPolicy(key => ConcurrencyCap(thinkerGlobalCap, key), DeriveGlobalConcurrencyKey)
  }

  /** The table entry for thinker sessions is a literal template: a real session gets the default cap 1,
      and cap 2 goes to the one session whose id is the template text itself. */
  lemma ThinkerSessionCap(thinkerGlobalCap: Option<int>, sessionId: string)
    ensures ConcurrencyCap(thinkerGlobalCap, THINKER_SESSION + sessionId)
            == if sessionId == "{sessionId}" then 2 else 1
  {
    var key := THINKER_SESSION + sessionId;
    assert key[0] == 'c' && key[18] == 's';
    assert THINKER_GLOBAL[18] == 'g';
    var template := "cognition.thinker:session:{sessionId}";
    assert template == THINKER_SESSION + "{sessionId}";
    if key == template {
      assert sessionId == key[|THINKER_SESSION|..] == template[|THINKER_SESSION|..] == "{sessionId}";
    }
  }

  /** The caps: two for memory organization, the configured number or else four for thinker jobs, two for the literal
      template, and one for every other key. */
  lemma CapsExactly(thinkerGlobalCap: Option<int>, key: string)
    ensures ConcurrencyCap(thinkerGlobalCap, key) ==
            if key == "cognition.thinker:global" then (if thinkerGlobalCap.Some? then thinkerGlobalCap.value else 4)
            else if key == "memory.organize:global" || key == "cognition.thinker:session:{sessionId}" then 2
            else 1
  {
  }

  /** Every thinker session counts against the one thinker cap, whatever its id contains. */
  lemma ThinkerSessionGlobalKey(sessionId: string)
    ensures DeriveGlobalConcurrencyKey(THINKER_SESSION + sessionId) == Some(THINKER_GLOBAL)
  {
    var key := THINKER_SESSION + sessionId;
    assert key[17..17 + |SESSION_SEGMENT|] == SESSION_SEGMENT;
    assert OccursAt(key, SESSION_SEGMENT, 17);
    forall i: nat | i < 17 ensures !OccursAt(key, SESSION_SEGMENT, i) {
      assert key[i] == THINKER_SESSION[i] != ':';
    }
    assert key[..17] + ":global" == THINKER_GLOBAL;
  }
}
