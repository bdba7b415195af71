/** The append-only interaction log: committing one record or a batch, marking, and choosing what to flush. */
module InteractionLogs {
  import opened JobTypes

  /** The in-memory store keeps what a failing batch wrote; the SQLite store rolls it back. */
  datatype Backend = InMemory | Sqlite

  datatype Rec = Rec(
    sessionId: string, recordId: string, recordIndex: int, actorType: string, recordType: string,
    payload: string, correlatedTurnId: Option<string>, committedAt: int, isProcessed: bool)

  datatype CommitInput = CommitInput(
    sessionId: string, actorType: string, recordType: string, payload: string, correlatedTurnId: Option<string>)

  /** An input with the random id and the clock reading its commit would take. */
  datatype Draft = Draft(input: CommitInput, freshId: string, now: int)

  datatype Error = InvalidActorType | InvalidRecordType | CustomIdNotAllowed | DuplicateRecord

  type Log = map<string, seq<Rec>>

  function RecordsOf(log: Log, sessionId: string): seq<Rec> {
    if sessionId in log then log[sessionId] else []
  }

  // ── indices ───────────────────────────────────────────────────────

  function Max(xs: seq<int>): int
    requires xs != []
  {
    if |xs| == 1 then xs[0]
    else var m := Max(xs[..|xs| - 1]); if m < xs[|xs| - 1] then xs[|xs| - 1] else m
  }

  function Min(xs: seq<int>): int
    requires xs != []
  {
    if |xs| == 1 then xs[0]
    else var m := Min(xs[..|xs| - 1]); if xs[|xs| - 1] < m then xs[|xs| - 1] else m
  }

  lemma {:induction false} MinMaxBound(xs: seq<int>)
    requires xs != []
    ensures Min(xs) in xs && Max(xs) in xs
    ensures forall x :: x in xs ==> Min(xs) <= x <= Max(xs)
  {
    var n := |xs| - 1;
    assert xs == xs[..n] + [xs[n]];
    if n > 0 { MinMaxBound(xs[..n]); }
  }

  function Indices(rs: seq<Rec>): seq<int> {
    seq(|rs|, i requires 0 <= i < |rs| => rs[i].recordIndex)
  }

  function MaxIndex(rs: seq<Rec>): Option<int> {
    if rs == [] then None else Some(Max(Indices(rs)))
  }

  function NextIndex(rs: seq<Rec>): int {
    match MaxIndex(rs)
    case None => 0
    case Some(m) => m + 1
  }

  lemma NextAfterAppend(rs: seq<Rec>, r: Rec)
    requires r.recordIndex == NextIndex(rs)
    ensures NextIndex(rs + [r]) == NextIndex(rs) + 1
  {
    var xs := Indices(rs + [r]);
    assert xs[..|rs|] == Indices(rs);
  }

  // ── one commit ────────────────────────────────────────────────────

  const ACTOR_TYPES := ["user", "rp_agent", "maiden", "task_agent", "system", "autonomy"]
  const RECORD_TYPES := [
    "message", "tool_call", "tool_result", "delegation", "task_result", "schedule_trigger", "status", "turn_settlement"]

  function Validate(input: CommitInput): Option<Error> {
    if input.actorType !in ACTOR_TYPES then Some(InvalidActorType)
    else if input.recordType !in RECORD_TYPES then Some(InvalidRecordType)
    else None
  }

  function BuildRecord(input: CommitInput, recordId: string, recordIndex: int, now: int): Rec {
    Rec(input.sessionId, recordId, recordIndex, input.actorType, input.recordType, input.payload,
        input.correlatedTurnId, now, false)
  }

  predicate HasId(rs: seq<Rec>, recordId: string) {
    exists i :: 0 <= i < |rs| && rs[i].recordId == recordId
  }

  predicate HasIndex(rs: seq<Rec>, recordIndex: int) {
    exists i :: 0 <= i < |rs| && rs[i].recordIndex == recordIndex
  }

  /** In memory, ids are unique within a session; in the table, ids are unique and so are a session's indices. */
  predicate Duplicates(backend: Backend, log: Log, r: Rec) {
    match backend
    case InMemory => HasId(RecordsOf(log, r.sessionId), r.recordId)
    case Sqlite => (exists s :: s in log && HasId(log[s], r.recordId)) || HasIndex(RecordsOf(log, r.sessionId), r.recordIndex)
  }

  function Appended(log: Log, r: Rec): Log {
    log[r.sessionId := RecordsOf(log, r.sessionId) + [r]]
  }

  datatype CommitResult = Committed(log: Log, record: Rec) | Refused(error: Error)

  function CommitOne(backend: Backend, log: Log, d: Draft, customId: Option<string>): CommitResult {
    var invalid := Validate(d.input);
    if invalid.Some? then Refused(invalid.value)
    else if customId.Some? && d.input.recordType != "turn_settlement" then Refused(CustomIdNotAllowed)
    else
      var id := if customId.Some? then customId.value else d.freshId;
      var r := BuildRecord(d.input, id, NextIndex(RecordsOf(log, d.input.sessionId)), d.now);
      if Duplicates(backend, log, r) then Refused(DuplicateRecord) else Committed(Appended(log, r), r)
  }

  // ── committing many, one after the other ──────────────────────────

  datatype BatchResult = BatchDone(log: Log, records: seq<Rec>) | BatchStopped(log: Log, error: Error)

  /** Single commits in order, up to the first that is refused. */
  function CommitEach(backend: Backend, log: Log, drafts: seq<Draft>): BatchResult
    decreases |drafts|
  {
    if drafts == [] then BatchDone(log, [])
    else
      match CommitOne(backend, log, drafts[0], None)
      case Refused(error) => BatchStopped(log, error)
      case Committed(log', r) => Preceded([r], CommitEach(backend, log', drafts[1..]))
  }

  function Preceded(records: seq<Rec>, result: BatchResult): BatchResult {
    match result
    case BatchDone(log, rest) => BatchDone(log, records + rest)
    case BatchStopped(_, _) => result
  }

  /** What a batch leaves behind: a refused input undoes the batch when the store can roll back and the batch
      itself began the transaction. */
  function Batched(backend: Backend, inTransaction: bool, log: Log, drafts: seq<Draft>): BatchResult {
    match CommitEach(backend, log, drafts)
    case BatchDone(log', records) => BatchDone(log', records)
    case BatchStopped(partial, error) =>
      BatchStopped(if backend.Sqlite? && !inTransaction then log else partial, error)
  }

  // ── marking and counting ──────────────────────────────────────────

  function Marked(rs: seq<Rec>, first: int, last: int): seq<Rec> {
    seq(|rs|, i requires 0 <= i < |rs| =>
      if first <= rs[i].recordIndex <= last then rs[i].(isProcessed := true) else rs[i])
  }

  function MarkedUpTo(rs: seq<Rec>, last: int): seq<Rec> {
    seq(|rs|, i requires 0 <= i < |rs| => if rs[i].recordIndex <= last then rs[i].(isProcessed := true) else rs[i])
  }

  function Filter(rs: seq<Rec>, p: Rec -> bool): seq<Rec> {
    if rs == [] then [] else (if p(rs[0]) then [rs[0]] else []) + Filter(rs[1..], p)
  }

  lemma {:induction false} FilterExactly(rs: seq<Rec>, p: Rec -> bool)
    ensures forall r :: r in Filter(rs, p) <==> r in rs && p(r)
  {
    if rs != [] {
      FilterExactly(rs[1..], p);
      assert forall r :: r in rs <==> r == rs[0] || r in rs[1..];
    }
  }

  function Unprocessed(rs: seq<Rec>): seq<Rec> {
    Filter(rs, (r: Rec) => !r.isProcessed)
  }

  function CountUnprocessedSettlements(rs: seq<Rec>): nat {
    |Filter(rs, (r: Rec) => !r.isProcessed && r.recordType == "turn_settlement")|
  }

  function CountUnprocessedRpTurns(rs: seq<Rec>): nat {
    |Filter(rs, (r: Rec) => !r.isProcessed && r.recordType == "message" && (r.actorType == "user" || r.actorType == "rp_agent"))|
  }

  function UnprocessedRange(rs: seq<Rec>): Option<(int, int)> {
    var indices := Indices(Unprocessed(rs));
    if indices == [] then None else Some((Min(indices), Max(indices)))
  }

  // ── flush selection ───────────────────────────────────────────────

  const FLUSH_THRESHOLD := 10

  datatype FlushMode = DialogueSlice | SessionClose

  datatype FlushRequest = FlushRequest(sessionId: string, agentId: string, first: int, last: int, mode: FlushMode)

  function FlushCount(rs: seq<Rec>): nat {
    var settlements := CountUnprocessedSettlements(rs);
    if settlements > 0 then settlements else CountUnprocessedRpTurns(rs)
  }

  function ShouldFlush(log: Log, sessionId: string, agentId: string): Option<FlushRequest> {
    var rs := RecordsOf(log, sessionId);
    if FlushCount(rs) < FLUSH_THRESHOLD then None
    else
      match UnprocessedRange(rs)
      case None => None
      case Some((first, last)) => Some(FlushRequest(sessionId, agentId, first, last, DialogueSlice))
  }

  function SessionCloseFlush(log: Log, sessionId: string, agentId: string): Option<FlushRequest> {
    match UnprocessedRange(RecordsOf(log, sessionId))
    case None => None
    case Some((first, last)) => Some(FlushRequest(sessionId, agentId, first, last, SessionClose))
  }

  // ── the objects ───────────────────────────────────────────────────

  class InteractionStore {
    const backend: Backend
    var recordsBySession: Log
    var inTransaction: bool

    constructor (backend: Backend)
      ensures this.backend == backend && recordsBySession == map[] && !inTransaction
    {
      this.backend := backend;
      recordsBySession, inTransaction := map[], false;
    }

    method Commit(r: Rec) returns (error: Option<Error>)
      modifies this`recordsBySession
      ensures error.Some? <==> Duplicates(backend, old(recordsBySession), r)
      ensures error.Some? ==> error.value == DuplicateRecord && recordsBySession == old(recordsBySession)
      ensures error.None? ==> recordsBySession == Appended(old(recordsBySession), r)
    {
      if Duplicates(backend, recordsBySession, r) {
        return Some(DuplicateRecord);
      }
      recordsBySession := recordsBySession[r.sessionId := RecordsOf(recordsBySession, r.sessionId) + [r]];
      return None;
    }

    method MarkRangeProcessed(sessionId: string, first: int, last: int)
      modifies this`recordsBySession
      ensures RecordsOf(recordsBySession, sessionId) == Marked(RecordsOf(old(recordsBySession), sessionId), first, last)
      ensures forall s :: s != sessionId ==> RecordsOf(recordsBySession, s) == RecordsOf(old(recordsBySession), s)
    {
      var records := RecordsOf(recordsBySession, sessionId);
      ghost var before := records;
      var i := 0;
      while i < |records|
        invariant 0 <= i <= |records| == |before|
        invariant forall j :: 0 <= j < i ==> records[j] == Marked(before, first, last)[j]
        invariant forall j :: i <= j < |records| ==> records[j] == before[j]
      {
        if records[i].recordIndex >= first && records[i].recordIndex <= last {
          records := records[i := records[i].(isProcessed := true)];
        }
        i := i + 1;
      }
      recordsBySession := recordsBySession[sessionId := records];
    }

    method MarkProcessed(sessionId: string, upToIndex: int)
      modifies this`recordsBySession
      ensures RecordsOf(recordsBySession, sessionId) == MarkedUpTo(RecordsOf(old(recordsBySession), sessionId), upToIndex)
      ensures forall s :: s != sessionId ==> RecordsOf(recordsBySession, s) == RecordsOf(old(recordsBySession), s)
    {
      var records := RecordsOf(recordsBySession, sessionId);
      ghost var before := records;
      var i := 0;
      while i < |records|
        invariant 0 <= i <= |records| == |before|
        invariant forall j :: 0 <= j < i ==> records[j] == MarkedUpTo(before, upToIndex)[j]
        invariant forall j :: i <= j < |records| ==> records[j] == before[j]
      {
        if records[i].recordIndex <= upToIndex {
          records := records[i := records[i].(isProcessed := true)];
        }
        i := i + 1;
      }
      recordsBySession := recordsBySession[sessionId := records];
    }
  }

  /** A refused batch returns no records: the error is thrown. */
  predicate BatchReturns(result: BatchResult, log: Log, records: seq<Rec>, error: Option<Error>) {
    match result
    case BatchDone(done, all) => log == done && records == all && error == None
    case BatchStopped(left, why) => log == left && error == Some(why)
  }

  predicate CommitReturns(result: CommitResult, before: Log, log: Log, record: Rec, error: Option<Error>) {
    match result
    case Committed(done, r) => log == done && record == r && error == None
    case Refused(why) => log == before && error == Some(why)
  }

  ghost predicate CountsOn(counted: map<string, int>, log: Log) {
    forall s :: s in counted ==> counted[s] == NextIndex(RecordsOf(log, s))
  }

  lemma EachStep(backend: Backend, log: Log, drafts: seq<Draft>, i: nat, records: seq<Rec>)
    requires i < |drafts|
    ensures Preceded(records, CommitEach(backend, log, drafts[i..])) ==
            match CommitOne(backend, log, drafts[i], None)
            case Refused(e) => BatchStopped(log, e)
            case Committed(log', r) => Preceded(records + [r], CommitEach(backend, log', drafts[i + 1..]))
  {
    assert drafts[i..][0] == drafts[i] && drafts[i..][1..] == drafts[i + 1..];
    match CommitOne(backend, log, drafts[i], None)
    case Refused(_) =>
    case Committed(log', r) =>
      var later := CommitEach(backend, log', drafts[i + 1..]);
      if later.BatchDone? { assert records + ([r] + later.records) == records + [r] + later.records; }
  }

  lemma NothingPrecedes(result: BatchResult)
    ensures Preceded([], result) == result
  {
    if result.BatchDone? { assert [] + result.records == result.records; }
  }

  lemma EachEnds(backend: Backend, log: Log, drafts: seq<Draft>, records: seq<Rec>)
    ensures Preceded(records, CommitEach(backend, log, drafts[|drafts|..])) == BatchDone(log, records)
  {
    assert drafts[|drafts|..] == [] && records + [] == records;
  }

  class CommitService {
    const store: InteractionStore

    constructor (store: InteractionStore)
      ensures this.store == store
    {
      this.store := store;
    }

    method GetNextIndex(sessionId: string) returns (next: int)
      ensures next == NextIndex(RecordsOf(store.recordsBySession, sessionId))
    {
      var maxIndex := MaxIndex(RecordsOf(store.recordsBySession, sessionId));
      next := if maxIndex.None? then 0 else maxIndex.value + 1;
    }

    /** Commit and CommitWithId: a refused record leaves the log as it was. */
    method Commit(d: Draft, customId: Option<string>) returns (record: Option<Rec>, error: Option<Error>)
      modifies store`recordsBySession
      ensures match CommitOne(store.backend, old(store.recordsBySession), d, customId)
              case Refused(e) => record == None && error == Some(e) && store.recordsBySession == old(store.recordsBySession)
              case Committed(log, r) => record == Some(r) && error == None && store.recordsBySession == log
    {
      var invalid := Validate(d.input);
      if invalid.Some? {
        return None, invalid;
      }
      if customId.Some? && d.input.recordType != "turn_settlement" {
        return None, Some(CustomIdNotAllowed);
      }
      var recordId := if customId.Some? then customId.value else d.freshId;
      var recordIndex := GetNextIndex(d.input.sessionId);
      var r := BuildRecord(d.input, recordId, recordIndex, d.now);
      error := store.Commit(r);
      record := if error.None? then Some(r) else None;
    }

    /** One input of a batch: a session's next index is looked up once and counted on from there. */
    method CommitCounted(d: Draft, counted: map<string, int>) returns (record: Rec, error: Option<Error>, counted': map<string, int>)
      requires CountsOn(counted, store.recordsBySession)
      modifies store`recordsBySession
      ensures CommitReturns(CommitOne(store.backend, old(store.recordsBySession), d, None), old(store.recordsBySession),
                            store.recordsBySession, record, error)
      ensures error.None? ==> CountsOn(counted', store.recordsBySession)
    {
      counted' := counted;
      record := BuildRecord(d.input, d.freshId, 0, d.now);
      error := Validate(d.input);
      if error.Some? {
        return;
      }
      if d.input.sessionId !in counted' {
        var next := GetNextIndex(d.input.sessionId);
        counted' := counted'[d.input.sessionId := next];
      }
      var recordIndex := counted'[d.input.sessionId];
      counted' := counted'[d.input.sessionId := recordIndex + 1];
      record := BuildRecord(d.input, d.freshId, recordIndex, d.now);
      NextAfterAppend(RecordsOf(store.recordsBySession, d.input.sessionId), record);
      error := store.Commit(record);
    }

    /** The body of the batch. */
    method CommitAll(drafts: seq<Draft>) returns (records: seq<Rec>, error: Option<Error>)
      modifies store`recordsBySession
      ensures BatchReturns(CommitEach(store.backend, old(store.recordsBySession), drafts), store.recordsBySession, records, error)
    {
      var nextIndexBySession: map<string, int> := map[];
      records := [];
      var i := 0;
      ghost var whole := CommitEach(store.backend, store.recordsBySession, drafts);
      assert drafts[0..] == drafts;
      NothingPrecedes(whole);
      while i < |drafts|
        invariant 0 <= i <= |drafts|
        invariant CountsOn(nextIndexBySession, store.recordsBySession)
        invariant whole == Preceded(records, CommitEach(store.backend, store.recordsBySession, drafts[i..]))
      {
        EachStep(store.backend, store.recordsBySession, drafts, i, records);
        var record;
        record, error, nextIndexBySession := CommitCounted(drafts[i], nextIndexBySession);
        if error.Some? {
          return;
        }
        records := records + [record];
        i := i + 1;
      }
      EachEnds(store.backend, store.recordsBySession, drafts, records);
      return records, None;
    }

    method CommitBatch(drafts: seq<Draft>) returns (records: seq<Rec>, error: Option<Error>)
      modifies store
      ensures store.inTransaction == old(store.inTransaction)
      ensures BatchReturns(Batched(store.backend, old(store.inTransaction), old(store.recordsBySession), drafts),
                           store.recordsBySession, records, error)
    {
      if |drafts| == 0 {
        return [], None;
      }
      if store.backend.InMemory? || store.inTransaction {
        records, error := CommitAll(drafts);
        return;
      }
      store.inTransaction := true;
      var begun := store.recordsBySession;
      records, error := CommitAll(drafts);
      if error.Some? {
        store.recordsBySession := begun;
      }
      store.inTransaction := false;
    }
  }
}
