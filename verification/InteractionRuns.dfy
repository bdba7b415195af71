/** Laws of the log and, over whole runs, which records count as processed. */
module InteractionRuns {
  import opened JobTypes
  import opened Sorting
  import opened InteractionLogs

  // ── dense indices ─────────────────────────────────────────────────

  ghost predicate DenseIn(rs: seq<Rec>, sessionId: string) {
    forall i :: 0 <= i < |rs| ==> rs[i].recordIndex == i && rs[i].sessionId == sessionId
  }

  /** Every session's records are numbered 0, 1, 2, … in the order they were committed. */
  ghost predicate Dense(log: Log) {
    forall s :: s in log ==> DenseIn(log[s], s)
  }

  lemma {:induction false} LastIsMax(rs: seq<Rec>, sessionId: string)
    requires DenseIn(rs, sessionId) && rs != []
    ensures Max(Indices(rs)) == |rs| - 1
  {
    MinMaxBound(Indices(rs));
    assert Indices(rs)[|rs| - 1] == |rs| - 1;
  }

  lemma NextIsLength(rs: seq<Rec>, sessionId: string)
    requires DenseIn(rs, sessionId)
    ensures NextIndex(rs) == |rs|
  {
    if rs != [] { LastIsMax(rs, sessionId); }
  }

  /** The log grew: every session keeps what it had and gained only unprocessed records. */
  ghost predicate Grew(log: Log, log': Log) {
    forall s :: GrewIn(RecordsOf(log, s), RecordsOf(log', s))
  }

  ghost predicate GrewIn(rs: seq<Rec>, rs': seq<Rec>) {
    rs <= rs' && forall i :: |rs| <= i < |rs'| ==> !rs'[i].isProcessed
  }

  lemma CommitGrows(backend: Backend, log: Log, d: Draft, customId: Option<string>)
    requires Dense(log)
    ensures var r := CommitOne(backend, log, d, customId);
            r.Committed? ==>
              && Dense(r.log) && Grew(log, r.log)
              && r.record.recordIndex == |RecordsOf(log, d.input.sessionId)|
              && RecordsOf(r.log, d.input.sessionId) == RecordsOf(log, d.input.sessionId) + [r.record]
              && forall s :: s != d.input.sessionId ==> RecordsOf(r.log, s) == RecordsOf(log, s)
  {
    NextIsLength(RecordsOf(log, d.input.sessionId), d.input.sessionId);
    var r := CommitOne(backend, log, d, customId);
    if r.Committed? { AppendGrows(log, r.record); }
  }

  /** A committed record is the last of its session, unprocessed, and says what the input said; its id is the one the
      caller brought, or else the random one. */
  lemma CommittedRecordExactly(backend: Backend, log: Log, d: Draft, customId: Option<string>)
    requires Dense(log) && CommitOne(backend, log, d, customId).Committed?
    ensures var (log', r) := (CommitOne(backend, log, d, customId).log, CommitOne(backend, log, d, customId).record);
            var s := d.input.sessionId;
            && RecordsOf(log', s) == RecordsOf(log, s) + [r] && r.recordIndex == |RecordsOf(log, s)|
            && r.sessionId == s && r.actorType == d.input.actorType && r.recordType == d.input.recordType
            && r.payload == d.input.payload && r.correlatedTurnId == d.input.correlatedTurnId
            && r.committedAt == d.now && !r.isProcessed
            && r.recordId == (if customId.Some? then customId.value else d.freshId)
            && (customId.Some? ==> r.recordType == "turn_settlement")
  {
    CommitGrows(backend, log, d, customId);
  }

  /** Why a record is refused, first reason first: an unknown actor, an unknown record type, an id of one's own for
      anything but a settlement, and else only an id that is taken. */
  lemma RefusedExactly(backend: Backend, log: Log, d: Draft, customId: Option<string>)
    requires Dense(log)
    ensures var actors := {"user", "rp_agent", "maiden", "task_agent", "system", "autonomy"};
            var types := {"message", "tool_call", "tool_result", "delegation", "task_result", "schedule_trigger", "status",
                          "turn_settlement"};
            var result := CommitOne(backend, log, d, customId);
            && (result == Refused(InvalidActorType) <==> d.input.actorType !in actors)
            && (result == Refused(InvalidRecordType) <==> d.input.actorType in actors && d.input.recordType !in types)
            && (result == Refused(CustomIdNotAllowed) <==>
                  && d.input.actorType in actors && d.input.recordType in types
                  && customId.Some? && d.input.recordType != "turn_settlement")
            && (result == Refused(DuplicateRecord) ==>
                  !IdFree(backend, log, d.(freshId := if customId.Some? then customId.value else d.freshId)))
  {
    ValidExactly(d.input);
    if CommitOne(backend, log, d, customId) == Refused(DuplicateRecord) {
      var d' := d.(freshId := if customId.Some? then customId.value else d.freshId);
      DuplicateExactly(backend, log, d');
    }
  }

  lemma ValidExactly(input: CommitInput)
    ensures Validate(input) == Some(InvalidActorType) <==>
            input.actorType !in {"user", "rp_agent", "maiden", "task_agent", "system", "autonomy"}
    ensures Validate(input) == Some(InvalidRecordType) <==>
            && input.actorType in {"user", "rp_agent", "maiden", "task_agent", "system", "autonomy"}
            && input.recordType !in {"message", "tool_call", "tool_result", "delegation", "task_result", "schedule_trigger",
                                     "status", "turn_settlement"}
    ensures Validate(input) in {None, Some(InvalidActorType), Some(InvalidRecordType)}
  {
  }

  lemma AppendGrows(log: Log, r: Rec)
    requires Dense(log) && r.recordIndex == |RecordsOf(log, r.sessionId)| && !r.isProcessed
    ensures Dense(Appended(log, r)) && Grew(log, Appended(log, r))
  {
  }

  lemma {:induction false} BatchGrows(backend: Backend, log: Log, drafts: seq<Draft>)
    requires Dense(log)
    ensures Dense(CommitEach(backend, log, drafts).log) && Grew(log, CommitEach(backend, log, drafts).log)
    decreases |drafts|
  {
    if drafts != [] {
      CommitGrows(backend, log, drafts[0], None);
      match CommitOne(backend, log, drafts[0], None)
      case Refused(_) =>
      case Committed(log', _) =>
        BatchGrows(backend, log', drafts[1..]);
        forall s ensures GrewIn(RecordsOf(log, s), RecordsOf(CommitEach(backend, log, drafts).log, s)) {
          assert GrewIn(RecordsOf(log, s), RecordsOf(log', s));
        }
    }
  }

  // ── batches ───────────────────────────────────────────────────────

  /** Where a batch is cut does not matter: committing the front and then the back is committing the whole. */
  lemma {:induction false} BatchesCompose(backend: Backend, log: Log, front: seq<Draft>, back: seq<Draft>)
    ensures CommitEach(backend, log, front + back) ==
            match CommitEach(backend, log, front)
            case BatchStopped(left, error) => BatchStopped(left, error)
            case BatchDone(log', records) => Preceded(records, CommitEach(backend, log', back))
    decreases |front|
  {
    if front == [] {
      assert front + back == back;
    } else {
      assert (front + back)[1..] == front[1..] + back;
      match CommitOne(backend, log, front[0], None)
      case Refused(_) =>
      case Committed(log', r) =>
        BatchesCompose(backend, log', front[1..], back);
        var rest := CommitEach(backend, log', front[1..]);
        if rest.BatchDone? {
          var later := CommitEach(backend, rest.log, back);
          if later.BatchDone? { Associates([r], rest.records, later.records); }
        }
    }
  }

  function OfSession(records: seq<Rec>, sessionId: string): seq<Rec> {
    if records == [] then []
    else (if records[0].sessionId == sessionId then [records[0]] else []) + OfSession(records[1..], sessionId)
  }

  predicate Built(d: Draft, r: Rec) {
    r == BuildRecord(d.input, d.freshId, r.recordIndex, d.now)
  }

  ghost predicate AllBuilt(drafts: seq<Draft>, records: seq<Rec>) {
    |records| == |drafts| && forall i :: 0 <= i < |drafts| ==> Built(drafts[i], records[i])
  }

  lemma OneCommit(backend: Backend, log: Log, d: Draft, s: string)
    requires CommitOne(backend, log, d, None).Committed?
    ensures var r := CommitOne(backend, log, d, None);
            && Built(d, r.record)
            && RecordsOf(r.log, s) == RecordsOf(log, s) + OfSession([r.record], s)
  {
  }

  lemma FirstThenRest(records: seq<Rec>, rest: seq<Rec>, first: Rec, drafts: seq<Draft>, s: string)
    requires drafts != [] && records == [first] + rest && Built(drafts[0], first) && AllBuilt(drafts[1..], rest)
    ensures AllBuilt(drafts, records)
    ensures OfSession(records, s) == OfSession([first], s) + OfSession(rest, s)
  {
    assert records[1..] == rest;
    forall i | 0 <= i < |drafts| ensures Built(drafts[i], records[i]) {
      if i > 0 { assert drafts[i] == drafts[1..][i - 1] && records[i] == rest[i - 1]; }
    }
  }

  lemma UnfoldBatch(backend: Backend, log: Log, drafts: seq<Draft>)
    requires drafts != [] && CommitEach(backend, log, drafts).BatchDone?
    ensures var one := CommitOne(backend, log, drafts[0], None);
            && one.Committed? && CommitEach(backend, one.log, drafts[1..]).BatchDone?
            && CommitEach(backend, log, drafts)
               == BatchDone(CommitEach(backend, one.log, drafts[1..]).log, [one.record] + CommitEach(backend, one.log, drafts[1..]).records)
  {
  }

  /** A batch over mixed sessions returns one record per input, and each session gains exactly its own, in
      input order. */
  lemma {:induction false} BatchAppendsToEachSession(backend: Backend, log: Log, drafts: seq<Draft>, s: string)
    requires CommitEach(backend, log, drafts).BatchDone?
    ensures var result := CommitEach(backend, log, drafts);
            && AllBuilt(drafts, result.records)
            && RecordsOf(result.log, s) == RecordsOf(log, s) + OfSession(result.records, s)
    decreases |drafts|
  {
    if drafts != [] {
      UnfoldBatch(backend, log, drafts);
      var one := CommitOne(backend, log, drafts[0], None);
      OneCommit(backend, log, drafts[0], s);
      BatchAppendsToEachSession(backend, one.log, drafts[1..], s);
      var rest := CommitEach(backend, one.log, drafts[1..]).records;
      FirstThenRest([one.record] + rest, rest, one.record, drafts, s);
      Associates(RecordsOf(log, s), OfSession([one.record], s), OfSession(rest, s));
    }
  }

  /** A refused batch: the store that rolls back is as before, unless the batch ran inside a larger transaction;
      otherwise exactly the inputs in front of the refused one are in the log. */
  lemma {:induction false} RefusedBatch(backend: Backend, inTransaction: bool, log: Log, drafts: seq<Draft>)
    returns (k: nat)
    requires Batched(backend, inTransaction, log, drafts).BatchStopped?
    ensures k < |drafts| && CommitEach(backend, log, drafts[..k]).BatchDone?
    ensures CommitOne(backend, CommitEach(backend, log, drafts[..k]).log, drafts[k], None)
            == Refused(Batched(backend, inTransaction, log, drafts).error)
    ensures Batched(backend, inTransaction, log, drafts).log ==
            if backend.Sqlite? && !inTransaction then log else CommitEach(backend, log, drafts[..k]).log
  {
    k := StoppedAt(backend, log, drafts);
  }

  lemma {:induction false} StoppedAt(backend: Backend, log: Log, drafts: seq<Draft>) returns (k: nat)
    requires CommitEach(backend, log, drafts).BatchStopped?
    ensures k < |drafts| && CommitEach(backend, log, drafts[..k]).BatchDone?
    ensures var front, whole := CommitEach(backend, log, drafts[..k]), CommitEach(backend, log, drafts);
            whole.log == front.log && CommitOne(backend, front.log, drafts[k], None) == Refused(whole.error)
    decreases |drafts|
  {
    match CommitOne(backend, log, drafts[0], None)
    case Refused(_) => k := 0;
    case Committed(log', _) =>
      var j := StoppedAt(backend, log', drafts[1..]);
      k := j + 1;
      assert drafts[..k][0] == drafts[0] && drafts[..k][1..] == drafts[1..][..j];
  }

  /** Two rows the store would not keep side by side. */
  predicate Clash(backend: Backend, sessionA: string, idA: string, sessionB: string, idB: string) {
    idA == idB && (backend.Sqlite? || sessionA == sessionB)
  }

  ghost predicate IdFree(backend: Backend, log: Log, d: Draft) {
    forall s, i :: 0 <= i < |RecordsOf(log, s)| ==> !Clash(backend, s, RecordsOf(log, s)[i].recordId, d.input.sessionId, d.freshId)
  }

  ghost predicate IdsApart(backend: Backend, drafts: seq<Draft>) {
    forall i, j :: 0 <= i < j < |drafts| ==>
      !Clash(backend, drafts[i].input.sessionId, drafts[i].freshId, drafts[j].input.sessionId, drafts[j].freshId)
  }

  lemma DuplicateExactly(backend: Backend, log: Log, d: Draft)
    requires Dense(log) && Validate(d.input).None?
    ensures CommitOne(backend, log, d, None).Committed? <==> IdFree(backend, log, d)
  {
    var rs := RecordsOf(log, d.input.sessionId);
    NextIsLength(rs, d.input.sessionId);
    assert !HasIndex(rs, |rs|);
    var r := BuildRecord(d.input, d.freshId, |rs|, d.now);
    if IdFree(backend, log, d) {
      if HasId(rs, d.freshId) {
        var i :| 0 <= i < |rs| && rs[i].recordId == d.freshId;
        assert Clash(backend, d.input.sessionId, RecordsOf(log, d.input.sessionId)[i].recordId, d.input.sessionId, d.freshId);
      }
      if backend.Sqlite? && exists s :: s in log && HasId(log[s], d.freshId) {
        var s :| s in log && HasId(log[s], d.freshId);
        var i :| 0 <= i < |log[s]| && log[s][i].recordId == d.freshId;
        assert Clash(backend, s, RecordsOf(log, s)[i].recordId, d.input.sessionId, d.freshId);
      }
    } else {
      var s, i :| 0 <= i < |RecordsOf(log, s)| && Clash(backend, s, RecordsOf(log, s)[i].recordId, d.input.sessionId, d.freshId);
      assert HasId(log[s], d.freshId);
    }
  }

  lemma FreeAfterCommit(backend: Backend, log: Log, d: Draft, other: Draft)
    requires Dense(log) && CommitOne(backend, log, d, None).Committed?
    ensures IdFree(backend, CommitOne(backend, log, d, None).log, other) <==>
              && IdFree(backend, log, other)
              && !Clash(backend, d.input.sessionId, d.freshId, other.input.sessionId, other.freshId)
  {
    CommitGrows(backend, log, d, None);
    var r := CommitOne(backend, log, d, None);
    var rs, rs' := RecordsOf(log, d.input.sessionId), RecordsOf(r.log, d.input.sessionId);
    assert rs'[|rs|] == r.record;
    if IdFree(backend, r.log, other) {
      forall s, i | 0 <= i < |RecordsOf(log, s)|
        ensures !Clash(backend, s, RecordsOf(log, s)[i].recordId, other.input.sessionId, other.freshId)
      {
        assert RecordsOf(r.log, s)[i] == RecordsOf(log, s)[i];
      }
    }
  }

  /** A batch goes through exactly when every input is valid and no id is taken or given twice. */
  lemma {:induction false} BatchSucceedsExactly(backend: Backend, log: Log, drafts: seq<Draft>)
    requires Dense(log)
    ensures CommitEach(backend, log, drafts).BatchDone? <==>
              && (forall i :: 0 <= i < |drafts| ==> Validate(drafts[i].input).None? && IdFree(backend, log, drafts[i]))
              && IdsApart(backend, drafts)
    decreases |drafts|
  {
    if drafts != [] {
      var d, rest := drafts[0], drafts[1..];
      assert forall i :: 0 < i < |drafts| ==> drafts[i] == rest[i - 1];
      if Validate(d.input).None? {
        DuplicateExactly(backend, log, d);
        if IdFree(backend, log, d) {
          var log' := CommitOne(backend, log, d, None).log;
          CommitGrows(backend, log, d, None);
          BatchSucceedsExactly(backend, log', rest);
          forall i | 0 <= i < |rest|
            ensures IdFree(backend, log', rest[i]) <==>
                      && IdFree(backend, log, drafts[i + 1])
                      && !Clash(backend, d.input.sessionId, d.freshId, drafts[i + 1].input.sessionId, drafts[i + 1].freshId)
          {
            FreeAfterCommit(backend, log, d, rest[i]);
          }
          ApartSplit(backend, drafts);
        }
      }
    }
  }

  lemma ApartSplit(backend: Backend, drafts: seq<Draft>)
    requires drafts != []
    ensures IdsApart(backend, drafts) <==>
              && IdsApart(backend, drafts[1..])
              && forall j :: 0 < j < |drafts| ==>
                   !Clash(backend, drafts[0].input.sessionId, drafts[0].freshId, drafts[j].input.sessionId, drafts[j].freshId)
  {
    var rest := drafts[1..];
    if IdsApart(backend, drafts) {
      forall i, j | 0 <= i < j < |rest|
        ensures !Clash(backend, rest[i].input.sessionId, rest[i].freshId, rest[j].input.sessionId, rest[j].freshId)
      {
        assert rest[i] == drafts[i + 1] && rest[j] == drafts[j + 1];
      }
    } else {
      var i, j :| 0 <= i < j < |drafts|
                  && Clash(backend, drafts[i].input.sessionId, drafts[i].freshId, drafts[j].input.sessionId, drafts[j].freshId);
      if i > 0 { assert rest[i - 1] == drafts[i] && rest[j - 1] == drafts[j]; }
    }
  }

  // ── what a flush request asks for ─────────────────────────────────

  /** The least and greatest unprocessed index. */
  ghost predicate IsUnprocessedRange(rs: seq<Rec>, first: int, last: int) {
    && 0 <= first <= last < |rs|
    && !rs[first].isProcessed && !rs[last].isProcessed
    && (forall i :: 0 <= i < first ==> rs[i].isProcessed)
    && (forall i :: last < i < |rs| ==> rs[i].isProcessed)
  }

  lemma UnprocessedRangeExactly(rs: seq<Rec>, sessionId: string)
    requires DenseIn(rs, sessionId)
    ensures UnprocessedRange(rs).None? <==> forall i :: 0 <= i < |rs| ==> rs[i].isProcessed
    ensures UnprocessedRange(rs).Some? ==> IsUnprocessedRange(rs, UnprocessedRange(rs).value.0, UnprocessedRange(rs).value.1)
  {
    FilterExactly(rs, (r: Rec) => !r.isProcessed);
    var found := Unprocessed(rs);
    var indices := Indices(found);
    forall i | 0 <= i < |rs| ensures !rs[i].isProcessed <==> i in indices {
      if !rs[i].isProcessed {
        assert rs[i] in found;
        var k :| 0 <= k < |found| && found[k] == rs[i];
        assert indices[k] == i;
      }
      if i in indices {
        var k :| 0 <= k < |indices| && indices[k] == i;
        assert found[k] in found;
      }
    }
    forall x | x in indices ensures 0 <= x < |rs| {
      var k :| 0 <= k < |indices| && indices[k] == x;
      assert found[k] in found;
    }
    if indices != [] { MinMaxBound(indices); }
    if found != [] { assert indices[0] in indices; }
  }

  lemma {:induction false} FilterSize(rs: seq<Rec>, p: Rec -> bool, n: nat)
    requires n <= |rs|
    ensures |Filter(rs[n..], p)| == |set i: nat | n <= i < |rs| && p(rs[i])|
    decreases |rs| - n
  {
    var here := set i: nat | n <= i < |rs| && p(rs[i]);
    if n == |rs| {
      assert here == {};
    } else {
      FilterSize(rs, p, n + 1);
      assert rs[n..][0] == rs[n] && rs[n..][1..] == rs[n + 1..];
      var later := set i: nat | n + 1 <= i < |rs| && p(rs[i]);
      assert here == later + if p(rs[n]) then {n} else {};
    }
  }

  /** What counts towards a flush: unprocessed settlements if there are any, otherwise unprocessed messages of the user
      and of the role-play agent; each record once. */
  lemma FlushCountExactly(rs: seq<Rec>)
    ensures var settlements := set i: nat | i < |rs| && !rs[i].isProcessed && rs[i].recordType == "turn_settlement";
            var turns := set i: nat | i < |rs| && !rs[i].isProcessed && rs[i].recordType == "message"
                                      && (rs[i].actorType == "user" || rs[i].actorType == "rp_agent");
            FlushCount(rs) == if settlements != {} then |settlements| else |turns|
  {
    var settled := (r: Rec) => !r.isProcessed && r.recordType == "turn_settlement";
    var turn := (r: Rec) => !r.isProcessed && r.recordType == "message" && (r.actorType == "user" || r.actorType == "rp_agent");
    FilterSize(rs, settled, 0);
    FilterSize(rs, turn, 0);
    assert rs[0..] == rs;
    assert (set i: nat | 0 <= i < |rs| && settled(rs[i]))
           == set i: nat | i < |rs| && !rs[i].isProcessed && rs[i].recordType == "turn_settlement";
    assert (set i: nat | 0 <= i < |rs| && turn(rs[i]))
           == set i: nat | i < |rs| && !rs[i].isProcessed && rs[i].recordType == "message"
                           && (rs[i].actorType == "user" || rs[i].actorType == "rp_agent");
  }

  /** A threshold flush is asked for exactly when ten records count: unprocessed settlements if there are any,
      otherwise unprocessed messages of user and agent. A range is then always found. */
  lemma ShouldFlushExactly(log: Log, sessionId: string, agentId: string)
    requires Dense(log)
    ensures ShouldFlush(log, sessionId, agentId).Some? <==> FlushCount(RecordsOf(log, sessionId)) >= 10
    ensures var request := ShouldFlush(log, sessionId, agentId);
            request.Some? ==>
              && request.value.sessionId == sessionId && request.value.agentId == agentId && request.value.mode == DialogueSlice
              && IsUnprocessedRange(RecordsOf(log, sessionId), request.value.first, request.value.last)
  {
    var rs := RecordsOf(log, sessionId);
    UnprocessedRangeExactly(rs, sessionId);
    FilterExactly(rs, (r: Rec) => !r.isProcessed && r.recordType == "turn_settlement");
    FilterExactly(rs, (r: Rec) => !r.isProcessed && r.recordType == "message" && (r.actorType == "user" || r.actorType == "rp_agent"));
    if FlushCount(rs) >= 10 {
      var counted := if CountUnprocessedSettlements(rs) > 0
        then Filter(rs, (r: Rec) => !r.isProcessed && r.recordType == "turn_settlement")
        else Filter(rs, (r: Rec) => !r.isProcessed && r.recordType == "message" && (r.actorType == "user" || r.actorType == "rp_agent"));
      assert counted[0] in counted;
      assert counted[0] in rs && !counted[0].isProcessed;
    }
  }

  lemma CloseFlushExactly(log: Log, sessionId: string, agentId: string)
    requires Dense(log)
    ensures var request := SessionCloseFlush(log, sessionId, agentId);
            && (request.None? <==> forall i :: 0 <= i < |RecordsOf(log, sessionId)| ==> RecordsOf(log, sessionId)[i].isProcessed)
            && (request.Some? ==>
                  && request.value.sessionId == sessionId && request.value.agentId == agentId
                  && request.value.mode == SessionClose
                  && IsUnprocessedRange(RecordsOf(log, sessionId), request.value.first, request.value.last))
  {
    UnprocessedRangeExactly(RecordsOf(log, sessionId), sessionId);
  }

  // ── runs ──────────────────────────────────────────────────────────

  datatype Span = Span(sessionId: string, first: int, last: int)

  /** The log, the flush requests ever made, and what was marked: by finished flushes and by failed turns. */
  datatype Sys = Sys(log: Log, issued: set<FlushRequest>, flushed: set<Span>, failed: set<Span>)

  datatype Event =
    | CommitEvent(draft: Draft, customId: Option<string>)
    | BatchEvent(drafts: seq<Draft>, inTransaction: bool)
    | ThresholdFlush(sessionId: string, agentId: string)
    | CloseFlush(sessionId: string, agentId: string)
    /** A request made at any earlier time is finished, for the first time or again: by range, or up to its end. */
    | FinishFlush(request: FlushRequest, byRange: bool)
    /** A failed turn commits its status record and marks everything from its start up to that record. */
    | FailTurn(draft: Draft, first: int)

  function Issue(sys: Sys, request: Option<FlushRequest>): Sys {
    if request.Some? then sys.(issued := sys.issued + {request.value}) else sys
  }

  function SetRecords(log: Log, sessionId: string, rs: seq<Rec>): Log {
    log[sessionId := rs]
  }

  function Next(backend: Backend, sys: Sys, e: Event): Sys {
    match e
    case CommitEvent(draft, customId) =>
      var r := CommitOne(backend, sys.log, draft, customId);
      if r.Committed? then sys.(log := r.log) else sys
    case BatchEvent(drafts, inTransaction) => sys.(log := Batched(backend, inTransaction, sys.log, drafts).log)
    case ThresholdFlush(s, agentId) => Issue(sys, ShouldFlush(sys.log, s, agentId))
    case CloseFlush(s, agentId) => Issue(sys, SessionCloseFlush(sys.log, s, agentId))
    case FinishFlush(request, byRange) =>
      if request !in sys.issued then sys
      else
        var rs := RecordsOf(sys.log, request.sessionId);
        var marked := if byRange then Marked(rs, request.first, request.last) else MarkedUpTo(rs, request.last);
        sys.(log := SetRecords(sys.log, request.sessionId, marked),
             flushed := sys.flushed + {Span(request.sessionId, request.first, request.last)})
    case FailTurn(draft, first) =>
      var r := CommitOne(backend, sys.log, draft, None);
      if r.Refused? then sys
      else
        var s, last := draft.input.sessionId, r.record.recordIndex;
        sys.(log := SetRecords(r.log, s, Marked(RecordsOf(r.log, s), first, last)), failed := sys.failed + {Span(s, first, last)})
  }

  const NewSys := Sys(map[], {}, {}, {})

  ghost predicate IsRun(backend: Backend, states: seq<Sys>, events: seq<Event>) {
    && |states| == |events| + 1
    && states[0] == NewSys
    && forall n :: 0 <= n < |events| ==> states[n + 1] == Next(backend, states[n], events[n])
  }

  ghost predicate InSome(spans: set<Span>, sessionId: string, i: int) {
    exists span :: span in spans && span.sessionId == sessionId && span.first <= i <= span.last
  }

  /** Records are processed exactly where a finished flush or a failed turn covers them. */
  ghost predicate ProcessedExactly(sys: Sys) {
    forall s, i :: 0 <= i < |RecordsOf(sys.log, s)| ==>
      (RecordsOf(sys.log, s)[i].isProcessed <==> InSome(sys.flushed, s, i) || InSome(sys.failed, s, i))
  }

  ghost predicate SpansInside(spans: set<Span>, log: Log) {
    forall span :: span in spans ==> span.last < |RecordsOf(log, span.sessionId)|
  }

  /** All that lies in front of a range is processed, and the range lies in the log. */
  ghost predicate RangeReady(log: Log, sessionId: string, first: int, last: int) {
    && 0 <= first <= last < |RecordsOf(log, sessionId)|
    && forall i :: 0 <= i < first ==> RecordsOf(log, sessionId)[i].isProcessed
  }

  ghost predicate SysInv(sys: Sys) {
    && Dense(sys.log)
    && ProcessedExactly(sys)
    && SpansInside(sys.flushed, sys.log) && SpansInside(sys.failed, sys.log)
    && (forall r :: r in sys.issued ==> RangeReady(sys.log, r.sessionId, r.first, r.last))
    && (forall span :: span in sys.flushed ==> RangeReady(sys.log, span.sessionId, span.first, span.last))
  }

  lemma GrowthKeeps(sys: Sys, log': Log)
    requires SysInv(sys) && Dense(log') && Grew(sys.log, log')
    ensures SysInv(sys.(log := log'))
  {
    assert forall s :: GrewIn(RecordsOf(sys.log, s), RecordsOf(log', s));
    forall s, i | 0 <= i < |RecordsOf(log', s)|
      ensures RecordsOf(log', s)[i].isProcessed <==> InSome(sys.flushed, s, i) || InSome(sys.failed, s, i)
    {
      var rs := RecordsOf(sys.log, s);
      assert GrewIn(rs, RecordsOf(log', s));
      if i < |rs| {
        assert RecordsOf(log', s)[i] == rs[i];
      }
    }
  }

  /** `log'` is `log` with the records of one session in a span marked as well. */
  ghost predicate AlsoMarked(log: Log, log': Log, span: Span) {
    && (forall s :: |RecordsOf(log', s)| == |RecordsOf(log, s)|)
    && (forall s, i :: 0 <= i < |RecordsOf(log, s)| && i < |RecordsOf(log', s)| ==>
          RecordsOf(log', s)[i].isProcessed
          == (RecordsOf(log, s)[i].isProcessed || (s == span.sessionId && span.first <= i <= span.last)))
  }

  lemma MarkingKeeps(sys: Sys, sys': Sys, span: Span)
    requires SysInv(sys) && Dense(sys'.log) && AlsoMarked(sys.log, sys'.log, span)
    requires span.last < |RecordsOf(sys.log, span.sessionId)| && sys'.issued == sys.issued
    requires || (sys'.flushed == sys.flushed + {span} && sys'.failed == sys.failed
                 && RangeReady(sys.log, span.sessionId, span.first, span.last))
             || (sys'.failed == sys.failed + {span} && sys'.flushed == sys.flushed)
    ensures SysInv(sys')
  {
    forall s, i | 0 <= i < |RecordsOf(sys'.log, s)|
      ensures RecordsOf(sys'.log, s)[i].isProcessed <==> InSome(sys'.flushed, s, i) || InSome(sys'.failed, s, i)
    {
      MoreSpans(sys.flushed, sys'.flushed, span, s, i);
      MoreSpans(sys.failed, sys'.failed, span, s, i);
    }
    forall s, first, last | RangeReady(sys.log, s, first, last) ensures RangeReady(sys'.log, s, first, last) {
    }
  }

  lemma MoreSpans(spans: set<Span>, spans': set<Span>, span: Span, s: string, i: int)
    requires spans' == spans || spans' == spans + {span}
    ensures InSome(spans', s, i) <==>
              InSome(spans, s, i) || (spans' == spans + {span} && s == span.sessionId && span.first <= i <= span.last)
  {
    if span in spans' && s == span.sessionId && span.first <= i <= span.last { assert InSome(spans', s, i); }
  }

  lemma MarkedMarks(log: Log, span: Span)
    requires Dense(log)
    ensures var log' := SetRecords(log, span.sessionId, Marked(RecordsOf(log, span.sessionId), span.first, span.last));
            Dense(log') && AlsoMarked(log, log', span)
  {
  }

  /** With everything in front processed already, marking up to the end is marking the range. */
  lemma UpToMarks(log: Log, span: Span)
    requires Dense(log) && RangeReady(log, span.sessionId, span.first, span.last)
    ensures var log' := SetRecords(log, span.sessionId, MarkedUpTo(RecordsOf(log, span.sessionId), span.last));
            Dense(log') && AlsoMarked(log, log', span)
  {
  }

  lemma IssueKeeps(sys: Sys, request: Option<FlushRequest>)
    requires SysInv(sys)
    requires request.Some? ==> IsUnprocessedRange(RecordsOf(sys.log, request.value.sessionId), request.value.first, request.value.last)
    ensures SysInv(Issue(sys, request))
  {
  }

  lemma FinishFlushKeeps(backend: Backend, sys: Sys, request: FlushRequest, byRange: bool)
    requires SysInv(sys)
    ensures SysInv(Next(backend, sys, FinishFlush(request, byRange)))
  {
    if request in sys.issued {
      var span := Span(request.sessionId, request.first, request.last);
      if byRange { MarkedMarks(sys.log, span); } else { UpToMarks(sys.log, span); }
      MarkingKeeps(sys, Next(backend, sys, FinishFlush(request, byRange)), span);
    }
  }

  lemma FailTurnKeeps(backend: Backend, sys: Sys, draft: Draft, first: int)
    requires SysInv(sys)
    ensures SysInv(Next(backend, sys, FailTurn(draft, first)))
  {
    CommitGrows(backend, sys.log, draft, None);
    var r := CommitOne(backend, sys.log, draft, None);
    if r.Committed? {
      GrowthKeeps(sys, r.log);
      var span := Span(draft.input.sessionId, first, r.record.recordIndex);
      MarkedMarks(r.log, span);
      MarkingKeeps(sys.(log := r.log), Next(backend, sys, FailTurn(draft, first)), span);
    }
  }

  lemma EventKeeps(backend: Backend, sys: Sys, e: Event)
    requires SysInv(sys)
    ensures SysInv(Next(backend, sys, e))
  {
    match e
    case CommitEvent(draft, customId) =>
      CommitGrows(backend, sys.log, draft, customId);
      if CommitOne(backend, sys.log, draft, customId).Committed? { GrowthKeeps(sys, CommitOne(backend, sys.log, draft, customId).log); }
    case BatchEvent(drafts, inTransaction) =>
      BatchGrows(backend, sys.log, drafts);
      assert Grew(sys.log, sys.log);
      GrowthKeeps(sys, Batched(backend, inTransaction, sys.log, drafts).log);
    case ThresholdFlush(s, agentId) =>
      ShouldFlushExactly(sys.log, s, agentId);
      IssueKeeps(sys, ShouldFlush(sys.log, s, agentId));
    case CloseFlush(s, agentId) =>
      CloseFlushExactly(sys.log, s, agentId);
      IssueKeeps(sys, SessionCloseFlush(sys.log, s, agentId));
    case FinishFlush(request, byRange) => FinishFlushKeeps(backend, sys, request, byRange);
    case FailTurn(draft, first) => FailTurnKeeps(backend, sys, draft, first);
  }

  lemma {:induction false} RunKeeps(backend: Backend, states: seq<Sys>, events: seq<Event>, n: nat)
    requires IsRun(backend, states, events) && n < |states|
    ensures SysInv(states[n])
  {
    if n > 0 {
      RunKeeps(backend, states, events, n - 1);
      EventKeeps(backend, states[n - 1], events[n - 1]);
    }
  }

  /** Over any run each session's indices are 0..n-1 in commit order. */
  lemma IndicesStayDense(backend: Backend, states: seq<Sys>, events: seq<Event>, n: nat, s: string, i: nat)
    requires IsRun(backend, states, events) && n < |states| && i < |RecordsOf(states[n].log, s)|
    ensures RecordsOf(states[n].log, s)[i].recordIndex == i && RecordsOf(states[n].log, s)[i].sessionId == s
  {
    RunKeeps(backend, states, events, n);
  }

  /** However late, often or out of order requests finish, no record is passed over: it counts as processed
      exactly when a finished flush or a failed turn had it in its range. */
  lemma NothingPassedOver(backend: Backend, states: seq<Sys>, events: seq<Event>, n: nat, s: string, i: nat)
    requires IsRun(backend, states, events) && n < |states| && i < |RecordsOf(states[n].log, s)|
    ensures RecordsOf(states[n].log, s)[i].isProcessed
            <==> InSome(states[n].flushed, s, i) || InSome(states[n].failed, s, i)
  {
    RunKeeps(backend, states, events, n);
  }

  /** Without failed turns the processed records are a prefix of the session. */
  lemma ProcessedArePrefix(backend: Backend, states: seq<Sys>, events: seq<Event>, n: nat, s: string, i: nat, j: nat)
    requires IsRun(backend, states, events) && n < |states|
    requires forall k :: 0 <= k < |events| ==> !events[k].FailTurn?
    requires i <= j < |RecordsOf(states[n].log, s)| && RecordsOf(states[n].log, s)[j].isProcessed
    ensures RecordsOf(states[n].log, s)[i].isProcessed
  {
    RunKeeps(backend, states, events, n);
    NoFailures(backend, states, events, n);
    var sys := states[n];
    var span :| span in sys.flushed && span.sessionId == s && span.first <= j <= span.last;
    if i >= span.first { assert InSome(sys.flushed, s, i); }
  }

  lemma {:induction false} NoFailures(backend: Backend, states: seq<Sys>, events: seq<Event>, n: nat)
    requires IsRun(backend, states, events) && n < |states|
    requires forall k :: 0 <= k < |events| ==> !events[k].FailTurn?
    ensures states[n].failed == {}
  {
    if n > 0 { NoFailures(backend, states, events, n - 1); }
  }

  // ── when marking a range keeps the prefix ─────────────────────────

  /** The first `p` records are processed and no others. */
  ghost predicate PrefixOf(rs: seq<Rec>, p: nat) {
    p <= |rs| && forall i :: 0 <= i < |rs| ==> (rs[i].isProcessed <==> i < p)
  }

  /** Marking a range keeps the processed records a prefix exactly when it does not start behind the first
      unprocessed record, or marks nothing. A failed turn marks from its own start, so with unflushed
      records in front of the turn it leaves a gap. */
  lemma MarkKeepsPrefixExactly(rs: seq<Rec>, sessionId: string, p: nat, first: int, last: int)
    requires DenseIn(rs, sessionId) && PrefixOf(rs, p)
    ensures (exists q :: PrefixOf(Marked(rs, first, last), q)) <==> first <= p || last < first || |rs| <= first
  {
    var rs' := Marked(rs, first, last);
    if first <= p || last < first || |rs| <= first {
      var q := if last < first || |rs| <= first || last < p then p else if last < |rs| then last + 1 else |rs|;
      assert PrefixOf(rs', q);
    } else {
      assert rs'[first].isProcessed && !rs'[p].isProcessed;
    }
  }

  // ── failed turns over runs ────────────────────────────────────────

  ghost predicate IsPrefix(rs: seq<Rec>) {
    forall i, j :: 0 <= i <= j < |rs| && rs[j].isProcessed ==> rs[i].isProcessed
  }

  ghost predicate AllPrefixes(log: Log) {
    forall s :: IsPrefix(RecordsOf(log, s))
  }

  /** The failed turn starts at or before the first unprocessed record of its session, or behind its own status
      record. */
  ghost predicate StartsInTime(rs: seq<Rec>, first: int) {
    first > |rs| || forall i :: 0 <= i < first && i < |rs| ==> rs[i].isProcessed
  }

  /** A failed turn that gets to commit its status record starts in time. */
  ghost predicate FailsInTime(backend: Backend, sys: Sys, e: Event) {
    e.FailTurn? && CommitOne(backend, sys.log, e.draft, None).Committed? ==>
      StartsInTime(RecordsOf(sys.log, e.draft.input.sessionId), e.first)
  }

  lemma GrowthKeepsPrefixes(log: Log, log': Log)
    requires AllPrefixes(log) && Grew(log, log')
    ensures AllPrefixes(log')
  {
    forall s ensures IsPrefix(RecordsOf(log', s)) {
      assert GrewIn(RecordsOf(log, s), RecordsOf(log', s)) && IsPrefix(RecordsOf(log, s));
    }
  }

  /** Marking a span keeps the prefixes if all in front of it is processed, or it holds no record. */
  lemma MarkingKeepsPrefixes(log: Log, log': Log, span: Span)
    requires AllPrefixes(log) && AlsoMarked(log, log', span)
    requires var rs := RecordsOf(log, span.sessionId);
             span.last < span.first || forall i :: 0 <= i < span.first && i < |rs| ==> rs[i].isProcessed
    ensures AllPrefixes(log')
  {
    forall s ensures IsPrefix(RecordsOf(log', s)) {
      var rs, rs' := RecordsOf(log, s), RecordsOf(log', s);
      assert IsPrefix(rs);
      forall i, j | 0 <= i <= j < |rs'| && rs'[j].isProcessed ensures rs'[i].isProcessed {
        assert rs'[j].isProcessed == (rs[j].isProcessed || (s == span.sessionId && span.first <= j <= span.last));
        assert rs'[i].isProcessed == (rs[i].isProcessed || (s == span.sessionId && span.first <= i <= span.last));
      }
    }
  }

  lemma FlushKeepsPrefixes(backend: Backend, sys: Sys, e: Event)
    requires SysInv(sys) && AllPrefixes(sys.log) && e.FinishFlush?
    ensures AllPrefixes(Next(backend, sys, e).log)
  {
    if e.request in sys.issued {
      var span := Span(e.request.sessionId, e.request.first, e.request.last);
      if e.byRange { MarkedMarks(sys.log, span); } else { UpToMarks(sys.log, span); }
      MarkingKeepsPrefixes(sys.log, Next(backend, sys, e).log, span);
    }
  }

  /** A committed failed turn keeps the prefixes exactly if it starts in time. */
  lemma FailedTurnKeepsPrefixesExactly(backend: Backend, sys: Sys, e: Event)
    requires SysInv(sys) && AllPrefixes(sys.log) && e.FailTurn?
    ensures AllPrefixes(Next(backend, sys, e).log) <==> FailsInTime(backend, sys, e)
  {
    var r := CommitOne(backend, sys.log, e.draft, None);
    if r.Committed? {
      CommitGrows(backend, sys.log, e.draft, None);
      GrowthKeepsPrefixes(sys.log, r.log);
      var s := e.draft.input.sessionId;
      var rs, log' := RecordsOf(sys.log, s), Next(backend, sys, e).log;
      var span := Span(s, e.first, |rs|);
      MarkedMarks(r.log, span);
      assert AlsoMarked(r.log, log', span);
      if StartsInTime(rs, e.first) {
        assert forall i :: 0 <= i < |rs| ==> RecordsOf(r.log, s)[i] == rs[i];
        MarkingKeepsPrefixes(r.log, log', span);
      } else {
        var i :| 0 <= i < e.first && i < |rs| && !rs[i].isProcessed;
        var rs' := RecordsOf(log', s);
        assert RecordsOf(r.log, s)[i] == rs[i];
        assert !rs'[i].isProcessed && rs'[|rs|].isProcessed;
        assert !IsPrefix(rs');
      }
    }
  }

  lemma EventKeepsPrefixes(backend: Backend, sys: Sys, e: Event)
    requires SysInv(sys) && AllPrefixes(sys.log) && FailsInTime(backend, sys, e)
    ensures AllPrefixes(Next(backend, sys, e).log)
  {
    match e
    case CommitEvent(draft, customId) =>
      CommitGrows(backend, sys.log, draft, customId);
      if CommitOne(backend, sys.log, draft, customId).Committed? {
        GrowthKeepsPrefixes(sys.log, CommitOne(backend, sys.log, draft, customId).log);
      }
    case BatchEvent(drafts, inTransaction) =>
      BatchGrows(backend, sys.log, drafts);
      GrowthKeepsPrefixes(sys.log, CommitEach(backend, sys.log, drafts).log);
    case FinishFlush(_, _) => FlushKeepsPrefixes(backend, sys, e);
    case FailTurn(_, _) => FailedTurnKeepsPrefixesExactly(backend, sys, e);
    case _ =>
  }

  lemma {:induction false} PrefixesUpTo(backend: Backend, states: seq<Sys>, events: seq<Event>, n: nat)
    requires IsRun(backend, states, events) && n < |states|
    requires forall k :: 0 <= k < |events| ==> FailsInTime(backend, states[k], events[k])
    ensures AllPrefixes(states[n].log)
  {
    if n > 0 {
      PrefixesUpTo(backend, states, events, n - 1);
      RunKeeps(backend, states, events, n - 1);
      EventKeepsPrefixes(backend, states[n - 1], events[n - 1]);
    }
  }

  /** In every state of a run the processed records are prefixes of their sessions, if and only if every failed
      turn of the run started at or before the first unprocessed record of its session (or marked nothing). */
  lemma PrefixesExactlyWhenTurnsFailInTime(backend: Backend, states: seq<Sys>, events: seq<Event>)
    requires IsRun(backend, states, events)
    ensures (forall n :: 0 <= n < |states| ==> AllPrefixes(states[n].log))
            <==> (forall n :: 0 <= n < |events| ==> FailsInTime(backend, states[n], events[n]))
  {
    if forall n :: 0 <= n < |events| ==> FailsInTime(backend, states[n], events[n]) {
      forall n | 0 <= n < |states| ensures AllPrefixes(states[n].log) { PrefixesUpTo(backend, states, events, n); }
    }
    if forall n :: 0 <= n < |states| ==> AllPrefixes(states[n].log) {
      forall n | 0 <= n < |events| ensures FailsInTime(backend, states[n], events[n]) {
        RunKeeps(backend, states, events, n);
        assert AllPrefixes(states[n].log) && AllPrefixes(states[n + 1].log);
        if events[n].FailTurn? { FailedTurnKeepsPrefixesExactly(backend, states[n], events[n]); }
      }
    }
  }

  /** The shortest such gap: a message nobody flushed, then a turn that fails. */
  lemma FailedTurnLeavesGap(backend: Backend) returns (states: seq<Sys>, events: seq<Event>)
    ensures IsRun(backend, states, events) && |events| == 3
    ensures var rs := RecordsOf(states[3].log, "s");
            |rs| == 3 && !rs[0].isProcessed && rs[1].isProcessed && rs[2].isProcessed
    ensures !AllPrefixes(states[3].log)
  {
    var message := CommitInput("s", "user", "message", "", None);
    var status := CommitInput("s", "system", "status", "", None);
    events := [CommitEvent(Draft(message, "0", 0), None), CommitEvent(Draft(message, "1", 0), None),
               FailTurn(Draft(status, "2", 0), 1)];
    var s1 := Next(backend, NewSys, events[0]);
    var s2 := Next(backend, s1, events[1]);
    var s3 := Next(backend, s2, events[2]);
    states := [NewSys, s1, s2, s3];
    var m0, m1 := BuildRecord(message, "0", 0, 0), BuildRecord(message, "1", 1, 0);
    CommitsPlainly(backend, NewSys.log, events[0].draft);
    assert [] + [m0] == [m0];
    assert s1 == NewSys.(log := map["s" := [m0]]);
    CommitsPlainly(backend, s1.log, events[1].draft);
    assert [m0] + [m1] == [m0, m1];
    assert s2 == NewSys.(log := map["s" := [m0, m1]]);
    GapAfter(backend, s2, events[2].draft, m0, m1);
  }

  lemma GapAfter(backend: Backend, sys: Sys, status: Draft, m0: Rec, m1: Rec)
    requires sys.log == map["s" := [m0, m1]] && DenseIn([m0, m1], "s") && !m0.isProcessed
    requires status.input.sessionId == "s" && Validate(status.input).None?
    requires status.freshId != m0.recordId && status.freshId != m1.recordId
    ensures var log := Next(backend, sys, FailTurn(status, 1)).log;
            var rs := RecordsOf(log, "s");
            && |rs| == 3 && !rs[0].isProcessed && rs[1].isProcessed && rs[2].isProcessed
            && !AllPrefixes(log)
  {
    CommitsPlainly(backend, sys.log, status);
    var st := BuildRecord(status.input, status.freshId, 2, status.now);
    assert [m0, m1] + [st] == [m0, m1, st];
    var log := Next(backend, sys, FailTurn(status, 1)).log;
    var rs := RecordsOf(log, "s");
    assert rs == Marked([m0, m1, st], 1, 2);
    assert !rs[0].isProcessed && rs[1].isProcessed;
    assert !IsPrefix(rs);
  }

  lemma CommitsPlainly(backend: Backend, log: Log, d: Draft)
    requires Dense(log) && log.Keys <= {d.input.sessionId} && Validate(d.input).None?
    requires forall i :: 0 <= i < |RecordsOf(log, d.input.sessionId)| ==> RecordsOf(log, d.input.sessionId)[i].recordId != d.freshId
    ensures var rs := RecordsOf(log, d.input.sessionId);
            CommitOne(backend, log, d, None)
            == Committed(map[d.input.sessionId := rs + [BuildRecord(d.input, d.freshId, |rs|, d.now)]],
                         BuildRecord(d.input, d.freshId, |rs|, d.now))
  {
    var s := d.input.sessionId;
    DuplicateExactly(backend, log, d);
    NextIsLength(RecordsOf(log, s), s);
    assert forall s' :: s' != s ==> RecordsOf(log, s') == [];
    var r := BuildRecord(d.input, d.freshId, |RecordsOf(log, s)|, d.now);
    assert Appended(log, r) == map[s := RecordsOf(log, s) + [r]];
  }
}
