/**
  The recording spool: events collect in memory, full chunks are queued, and one writer task moves
  queued chunks to a file while recording goes on.

  Appending, and each point where the writer task hands control back, is one step; `Step` covers
  every interleaving of them. A spool file is the sequence of events written to it.
*/
module RecordingSpoolModel {
  import opened Wrappers

  /** An event with what the spool looks at: its time, the device type it counts for ("" when it
      counts for none) and its estimated size. */
  datatype Event = Event(tUs: int, deviceType: string, bytes: nat)

  datatype Limits = Limits(events: nat, bytes: nat, pendingChunks: nat)

  datatype State = State(
    limits: Limits,
    memory: seq<Event>,
    memoryBytes: nat,
    pending: seq<seq<Event>>,
    flushing: bool,
    writing: Option<seq<Event>>,
    file: Option<seq<Event>>,
    failed: bool,
    eventCount: nat,
    durationMs: int,
    deviceTypes: set<string>)

  datatype Op =
    | Append(event: Event, hasLoop: bool)
    | TakeChunk
    | ChunkWritten
    | WriteFailed(written: nat)
    | WriterExits

  function AtLeastOne(n: int): nat { if n < 1 then 1 else n }

  function Init(events: int, bytes: int, pendingChunks: int): State {
    State(Limits(AtLeastOne(events), AtLeastOne(bytes), AtLeastOne(pendingChunks)),
          [], 0, [], false, None, None, false, 0, 0, {})
  }

  /** Milliseconds, rounded toward zero. */
  function Millis(tUs: int): int { if tUs < 0 then -(-tUs / 1000) else tUs / 1000 }

  /** Start the writer unless it runs; that needs an event loop. */
  function EnsureWriter(s: State, hasLoop: bool): State {
    if s.flushing then s else if hasLoop then s.(flushing := true) else s.(failed := true)
  }

  function QueueMemory(s: State, hasLoop: bool): State {
    if s.memory == [] then s
    else if |s.pending| >= s.limits.pendingChunks then s.(failed := true)
    else EnsureWriter(s.(pending := s.pending + [s.memory], memory := [], memoryBytes := 0), hasLoop)
  }

  function AppendEvent(s: State, e: Event, hasLoop: bool): State {
    if s.failed then s
    else
      var s' := Note(s, e);
      if |s'.memory| >= s.limits.events || s'.memoryBytes >= s.limits.bytes then QueueMemory(s', hasLoop) else s'
  }

  /** Put one more event in memory and in the summary. */
  function Note(s: State, e: Event): State {
    s.(memory := s.memory + [e], memoryBytes := s.memoryBytes + e.bytes, eventCount := s.eventCount + 1,
       durationMs := Max(s.durationMs, Millis(e.tUs)),
       deviceTypes := if e.deviceType == "" then s.deviceTypes else s.deviceTypes + {e.deviceType})
  }

  function FileEvents(s: State): seq<Event> { if s.file.Some? then s.file.value else [] }

  function WritingEvents(s: State): seq<Event> { if s.writing.Some? then s.writing.value else [] }

  /** What can happen next. */
  predicate Enabled(s: State, op: Op) {
    match op
    case Append(_, _) => true
    case TakeChunk => s.flushing && s.writing.None? && s.pending != []
    case ChunkWritten => s.writing.Some?
    case WriteFailed(written) => s.writing.Some? && written <= |s.writing.value|
    case WriterExits => s.flushing && s.writing.None? && s.pending == []
  }

  function Step(s: State, op: Op): State
    requires Enabled(s, op)
  {
    match op
    case Append(e, hasLoop) => AppendEvent(s, e, hasLoop)
    case TakeChunk => s.(writing := Some(s.pending[0]), pending := s.pending[1..])
    case ChunkWritten => s.(file := Some(FileEvents(s) + s.writing.value), writing := None)
    case WriteFailed(written) =>
      s.(file := Some(FileEvents(s) + s.writing.value[..written]), writing := None, failed := true, flushing := false)
    case WriterExits => s.(flushing := false)
  }

  // ---- The invariant ----

  function Flatten(chunks: seq<seq<Event>>): seq<Event> {
    if chunks == [] then [] else Flatten(chunks[..|chunks| - 1]) + chunks[|chunks| - 1]
  }

  lemma {:induction false} FlattenHead(chunks: seq<seq<Event>>)
    requires chunks != []
    ensures Flatten(chunks) == chunks[0] + Flatten(chunks[1..])
  {
    if |chunks| == 1 {
      assert chunks[..0] == [] && chunks[1..] == [];
      assert Flatten(chunks[..0]) == [];
    } else {
      var front := chunks[..|chunks| - 1];
      FlattenHead(front);
      assert front[1..] == chunks[1..][..|chunks| - 2];
      assert chunks[1..][|chunks| - 2] == chunks[|chunks| - 1];
    }
  }

  /** All the events the spool still has, oldest first: in the file, on their way there, queued and
      in memory. */
  function Contents(s: State): seq<Event> {
    FileEvents(s) + WritingEvents(s) + Flatten(s.pending) + s.memory
  }

  function DurationOf(events: seq<Event>): int {
    if events == [] then 0 else Max(DurationOf(events[..|events| - 1]), Millis(events[|events| - 1].tUs))
  }

  /** The time of the latest event in whole milliseconds, and zero if none is later than that. */
  ghost predicate DurationIs(events: seq<Event>, ms: int) {
    && ms >= 0 && (forall e | e in events :: e.tUs < (ms + 1) * 1000)
    && (ms == 0 || exists e | e in events :: ms * 1000 <= e.tUs)
  }

  lemma {:induction false} DurationFacts(events: seq<Event>)
    ensures DurationIs(events, DurationOf(events))
  {
    if events != [] {
      var front, last := events[..|events| - 1], events[|events| - 1];
      DurationFacts(front);
      assert events == front + [last];
      MillisFacts(last.tUs);
    }
  }

  lemma MillisFacts(tUs: int)
    ensures tUs < (Millis(tUs) + 1) * 1000 && (Millis(tUs) > 0 ==> Millis(tUs) * 1000 <= tUs)
  {
  }

  function TypesOf(events: seq<Event>): set<string> {
    set e | e in events && e.deviceType != "" :: e.deviceType
  }

  function BytesOf(events: seq<Event>): nat {
    if events == [] then 0 else BytesOf(events[..|events| - 1]) + events[|events| - 1].bytes
  }

  /** No chunk is larger than allowed, and queued chunks have a writer. */
  ghost predicate Shape(s: State) {
    && s.limits.events >= 1 && s.limits.bytes >= 1 && s.limits.pendingChunks >= 1
    && |s.memory| <= s.limits.events && s.memoryBytes == BytesOf(s.memory)
    && (!s.failed ==> |s.memory| < s.limits.events && s.memoryBytes < s.limits.bytes)
    && |s.pending| <= s.limits.pendingChunks
    && (forall c | c in s.pending :: |c| <= s.limits.events)
    && (s.writing.Some? ==> s.flushing && |s.writing.value| <= s.limits.events)
    && (s.pending != [] && !s.failed ==> s.flushing)
  }

  /** The events accepted so far, and whether a write of some chunk was cut short. */
  datatype Log = Log(accepted: seq<Event>, cut: bool)

  const NO_LOG := Log([], false)

  /** The write fails before the whole chunk is in the file. */
  predicate CutsShort(s: State, op: Op) {
    op.WriteFailed? && s.writing.Some? && op.written < |s.writing.value|
  }

  function Logged(s: State, log: Log, op: Op): Log {
    Log(log.accepted + Accepts(s, op), log.cut || CutsShort(s, op))
  }

  /** One stretch of the accepted events is missing, and it is not empty. */
  ghost predicate Gap(kept: seq<Event>, accepted: seq<Event>) {
    exists i, j :: 0 <= i < j <= |accepted| && kept == accepted[..i] + accepted[j..]
  }

  /** Nothing is lost or reordered, whether the spool has failed or not, unless a write was cut
      short. Then the writer has stopped for good, and one stretch is missing. */
  ghost predicate Ledger(s: State, log: Log) {
    if log.cut then s.failed && !s.flushing && s.writing.None? && Gap(Contents(s), log.accepted)
    else Contents(s) == log.accepted
  }

  /** The summary describes exactly the accepted events. */
  ghost predicate Summary(s: State, accepted: seq<Event>) {
    s.eventCount == |accepted| && s.durationMs == DurationOf(accepted) && s.deviceTypes == TypesOf(accepted)
  }

  ghost predicate Inv(s: State, log: Log) {
    Shape(s) && Ledger(s, log) && Summary(s, log.accepted)
  }

  /** The events an operation adds to those the spool has accepted. */
  function Accepts(s: State, op: Op): seq<Event> {
    if op.Append? && !s.failed then [op.event] else []
  }

  lemma SummaryStep(accepted: seq<Event>, e: Event)
    ensures DurationOf(accepted + [e]) == Max(DurationOf(accepted), Millis(e.tUs))
    ensures TypesOf(accepted + [e])
         == if e.deviceType == "" then TypesOf(accepted) else TypesOf(accepted) + {e.deviceType}
  {
    assert (accepted + [e])[..|accepted|] == accepted;
    forall t | t in TypesOf(accepted) ensures t in TypesOf(accepted + [e]) {
      var x :| x in accepted && x.deviceType == t;
      assert x in accepted + [e];
    }
    assert e in accepted + [e];
  }

  lemma QueueContents(s: State, hasLoop: bool)
    ensures Contents(QueueMemory(s, hasLoop)) == Contents(s)
  {
    if s.memory != [] && |s.pending| < s.limits.pendingChunks {
      QueueFlatten(FileEvents(s) + WritingEvents(s), s.pending, s.memory);
    }
  }

  lemma QueueFlatten(before: seq<Event>, pending: seq<seq<Event>>, memory: seq<Event>)
    ensures before + Flatten(pending) + memory == before + Flatten(pending + [memory]) + []
  {
    assert (pending + [memory])[..|pending|] == pending;
  }

  lemma AppendContents(s: State, e: Event, hasLoop: bool)
    requires !s.failed
    ensures Contents(AppendEvent(s, e, hasLoop)) == Contents(s) + [e]
  {
    NoteContents(s, e);
    QueueContents(Note(s, e), hasLoop);
  }

  lemma NoteContents(s: State, e: Event)
    ensures Contents(Note(s, e)) == Contents(s) + [e]
  {
    Assoc(FileEvents(s) + WritingEvents(s) + Flatten(s.pending), s.memory, [e]);
  }

  lemma TakeContents(file: seq<Event>, pending: seq<seq<Event>>)
    requires pending != []
    ensures file + [] + Flatten(pending) == file + pending[0] + Flatten(pending[1..])
  {
    FlattenHead(pending);
    Assoc(file, pending[0], Flatten(pending[1..]));
    assert file + [] == file;
  }

  lemma CutContents(before: seq<Event>, chunk: seq<Event>, written: nat, queued: seq<Event>, memory: seq<Event>)
    requires written <= |chunk|
    ensures var whole, kept := before + chunk + queued + memory, before + chunk[..written] + [] + queued + memory;
            if written == |chunk| then kept == whole else Gap(kept, whole)
  {
    var whole, kept := before + chunk + queued + memory, before + chunk[..written] + [] + queued + memory;
    var i, j := |before| + written, |before| + |chunk|;
    assert whole[..i] == before + chunk[..written];
    assert whole[j..] == queued + memory;
    assert kept == whole[..i] + whole[j..];
  }

  lemma WriterLedger(s: State, log: Log, op: Op)
    requires Shape(s) && Ledger(s, log) && Enabled(s, op) && !op.Append?
    ensures Ledger(Step(s, op), Logged(s, log, op))
  {
    assert log.accepted + [] == log.accepted;
    match op
    case TakeChunk => TakeContents(FileEvents(s), s.pending);
    case ChunkWritten => assert FileEvents(s) + s.writing.value + [] == FileEvents(s) + s.writing.value;
    case WriteFailed(written) =>
      CutContents(FileEvents(s), s.writing.value, written, Flatten(s.pending), s.memory);
    case WriterExits =>
  }

  /** A step of the writer keeps the shape and the ledger, and leaves it less to do. */
  lemma WriterKeeps(s: State, log: Log, op: Op)
    requires Shape(s) && Enabled(s, op) && !op.Append?
    ensures Shape(Step(s, op)) && Logged(s, log, op).accepted == log.accepted
    ensures Ledger(s, log) ==> Ledger(Step(s, op), Logged(s, log, op))
    ensures WorkLeft(Step(s, op)) < WorkLeft(s)
  {
    ShapeKeeps(s, op);
    if Ledger(s, log) { WriterLedger(s, log, op); }
  }

  lemma ShapeKeeps(s: State, op: Op)
    requires Shape(s) && Enabled(s, op)
    ensures Shape(Step(s, op))
  {
    if op.Append? { NoteBytes(s, op.event); }
  }

  lemma NoteBytes(s: State, e: Event)
    ensures BytesOf(s.memory + [e]) == BytesOf(s.memory) + e.bytes && Note(s, e).memory == s.memory + [e]
  {
    assert (s.memory + [e])[..|s.memory|] == s.memory;
  }

  // ---- When the spool fails, and when it spills ----

  /** With one more event the memory reaches one of its limits. */
  ghost predicate Fills(s: State, e: Event) {
    |s.memory| + 1 >= s.limits.events || BytesOf(s.memory + [e]) >= s.limits.bytes
  }

  /** A write fails; or an event fills the memory while the queue is full, or while the writer would have
      to be started and there is no event loop. */
  ghost predicate FailsNow(s: State, op: Op) {
    match op
    case WriteFailed(_) => true
    case Append(e, hasLoop) =>
      !s.failed && Fills(s, e) && (|s.pending| >= s.limits.pendingChunks || (!s.flushing && !hasLoop))
    case _ => false
  }

  lemma StepFails(s: State, op: Op)
    requires Shape(s) && Enabled(s, op)
    ensures Step(s, op).failed <==> s.failed || FailsNow(s, op)
  {
    if op.Append? { NoteBytes(s, op.event); }
  }

  /** The memory is queued as one chunk exactly when an event fills it and the queue has room. */
  lemma AppendMoves(s: State, e: Event, hasLoop: bool)
    requires Shape(s) && !s.failed
    ensures var t := AppendEvent(s, e, hasLoop);
            if Fills(s, e) && |s.pending| < s.limits.pendingChunks
            then t.pending == s.pending + [s.memory + [e]] && t.memory == []
            else t.pending == s.pending && t.memory == s.memory + [e]
  {
    NoteBytes(s, e);
  }

  /** The steps the writer has left. */
  function WorkLeft(s: State): nat {
    3 * |s.pending| + (if s.writing.Some? then 2 else 0) + if s.flushing then 1 else 0
  }

  lemma SummaryKeeps(s: State, accepted: seq<Event>, op: Op)
    requires Summary(s, accepted) && Enabled(s, op)
    ensures Summary(Step(s, op), accepted + Accepts(s, op))
  {
    if op.Append? && !s.failed {
      SummaryStep(accepted, op.event);
    } else {
      assert accepted + [] == accepted;
    }
  }

  /** Every step keeps the invariant. */
  lemma StepKeeps(s: State, log: Log, op: Op)
    requires Inv(s, log) && Enabled(s, op)
    ensures Inv(Step(s, op), Logged(s, log, op))
  {
    ShapeKeeps(s, op);
    SummaryKeeps(s, log.accepted, op);
    if !op.Append? {
      WriterLedger(s, log, op);
    } else if s.failed {
      assert log.accepted + [] == log.accepted;
    } else {
      AppendContents(s, op.event, op.hasLoop);
    }
  }

  lemma {:induction false} FlattenBound(chunks: seq<seq<Event>>, limit: nat)
    requires forall c | c in chunks :: |c| <= limit
    ensures |Flatten(chunks)| <= |chunks| * limit
  {
    if chunks != [] {
      FlattenBound(chunks[..|chunks| - 1], limit);
      assert |chunks| * limit == (|chunks| - 1) * limit + limit;
    }
  }

  lemma ProductBound(n: nat, max: nat, limit: nat)
    requires n <= max
    ensures n * limit + 2 * limit <= (max + 2) * limit
  {
    assert (max + 2) * limit - (n * limit + 2 * limit) == (max - n) * limit;
  }

  /** The events that are not in the file yet. */
  function Unspilled(s: State): nat { |WritingEvents(s)| + |Flatten(s.pending)| + |s.memory| }

  /** The queue, a chunk being written, and one being filled. */
  function Capacity(limits: Limits): nat { (limits.pendingChunks + 2) * limits.events }

  /** The events that are not in the file yet never exceed a fixed number of chunks. */
  lemma UnspilledBound(s: State)
    requires Shape(s)
    ensures Unspilled(s) <= Capacity(s.limits)
  {
    FlattenBound(s.pending, s.limits.events);
    ProductBound(|s.pending|, s.limits.pendingChunks, s.limits.events);
  }

  // ---- Runs ----

  function Run(s: State, ops: seq<Op>): Option<(State, Log)> {
    if ops == [] then Some((s, NO_LOG))
    else
      var before := Run(s, ops[..|ops| - 1]);
      var op := ops[|ops| - 1];
      if before.None? || !Enabled(before.value.0, op) then None
      else Some((Step(before.value.0, op), Logged(before.value.0, before.value.1, op)))
  }

  lemma InitInv(events: int, bytes: int, pendingChunks: int)
    ensures Inv(Init(events, bytes, pendingChunks), NO_LOG)
  {
  }

  lemma {:induction false} RunInv(start: State, ops: seq<Op>)
    requires Inv(start, NO_LOG) && Run(start, ops).Some?
    ensures Inv(Run(start, ops).value.0, Run(start, ops).value.1)
  {
    if ops != [] {
      RunInv(start, ops[..|ops| - 1]);
      var (s, log) := Run(start, ops[..|ops| - 1]).value;
      StepKeeps(s, log, ops[|ops| - 1]);
    }
  }

  /** For every interleaving of appends and writer steps: file, in-flight chunk, queued chunks and
      memory together are the accepted events in order if and only if no write was cut short; if one
      was, the spool has failed and exactly one stretch is missing. What is not in the file stays
      bounded. A writer that falls behind or cannot start fails the spool but loses nothing. */
  lemma EveryInterleaving(events: int, bytes: int, pendingChunks: int, ops: seq<Op>)
    requires Run(Init(events, bytes, pendingChunks), ops).Some?
    ensures var (s, log) := Run(Init(events, bytes, pendingChunks), ops).value;
            && (Contents(s) == log.accepted <==> !log.cut)
            && (log.cut ==> s.failed && Gap(Contents(s), log.accepted))
            && s.eventCount == |log.accepted| && DurationIs(log.accepted, s.durationMs)
            && Unspilled(s) <= Capacity(s.limits)
  {
    var start := Init(events, bytes, pendingChunks);
    InitInv(events, bytes, pendingChunks);
    RunInv(start, ops);
    var (s, log) := Run(start, ops).value;
    LedgerDecides(s, log);
    DurationFacts(log.accepted);
    UnspilledBound(s);
  }

  lemma LedgerDecides(s: State, log: Log)
    requires Ledger(s, log)
    ensures Contents(s) == log.accepted <==> !log.cut
  {
    if log.cut { GapIsLoss(Contents(s), log.accepted); }
  }

  lemma GapIsLoss(kept: seq<Event>, accepted: seq<Event>)
    requires Gap(kept, accepted)
    ensures |kept| < |accepted|
  {
  }

  ghost predicate FailsAt(start: State, ops: seq<Op>, k: nat) {
    k < |ops| && Run(start, ops[..k]).Some? && FailsNow(Run(start, ops[..k]).value.0, ops[k])
  }

  lemma FailsAtMore(start: State, ops: seq<Op>, op: Op, k: nat)
    requires k < |ops|
    ensures FailsAt(start, ops + [op], k) <==> FailsAt(start, ops, k)
  {
    assert (ops + [op])[..k] == ops[..k];
  }

  ghost predicate SomeFails(start: State, ops: seq<Op>) { exists k: nat :: FailsAt(start, ops, k) }

  lemma FailsAtLast(start: State, front: seq<Op>, op: Op)
    requires Run(start, front).Some?
    ensures FailsAt(start, front + [op], |front|) <==> FailsNow(Run(start, front).value.0, op)
  {
    assert (front + [op])[..|front|] == front;
  }

  lemma SomeFailsNext(start: State, front: seq<Op>, op: Op)
    requires Run(start, front).Some?
    ensures SomeFails(start, front + [op]) <==> SomeFails(start, front) || FailsNow(Run(start, front).value.0, op)
  {
    FailsAtLast(start, front, op);
    if k: nat :| FailsAt(start, front, k) {
      FailsAtMore(start, front, op, k);
    }
    if k: nat :| FailsAt(start, front + [op], k) {
      if k < |front| { FailsAtMore(start, front, op, k); }
    }
  }

  lemma RunStep(start: State, front: seq<Op>, op: Op)
    requires Run(start, front + [op]).Some?
    ensures Run(start, front).Some? && Enabled(Run(start, front).value.0, op)
    ensures Run(start, front + [op]).value.0 == Step(Run(start, front).value.0, op)
  {
    assert (front + [op])[..|front|] == front;
  }

  lemma {:induction false} FailedSince(start: State, ops: seq<Op>)
    requires Inv(start, NO_LOG) && !start.failed && Run(start, ops).Some?
    ensures Run(start, ops).value.0.failed <==> SomeFails(start, ops)
  {
    if ops != [] {
      var front, op := ops[..|ops| - 1], ops[|ops| - 1];
      assert ops == front + [op];
      RunStep(start, front, op);
      FailedSince(start, front);
      RunInv(start, front);
      StepFails(Run(start, front).value.0, op);
      SomeFailsNext(start, front, op);
    }
  }

  /** In every run the spool has failed if and only if some write failed, or some event filled the memory
      while the queue was full or the writer could not be started. */
  lemma FailedIff(events: int, bytes: int, pendingChunks: int, ops: seq<Op>)
    requires Run(Init(events, bytes, pendingChunks), ops).Some?
    ensures var start := Init(events, bytes, pendingChunks);
            Run(start, ops).value.0.failed <==> SomeFails(start, ops)
  {
    InitInv(events, bytes, pendingChunks);
    FailedSince(Init(events, bytes, pendingChunks), ops);
  }

  lemma {:induction false} OnlyWritesCut(start: State, ops: seq<Op>)
    requires Run(start, ops).Some? && forall op | op in ops :: !op.WriteFailed?
    ensures !Run(start, ops).value.1.cut
  {
    if ops != [] { OnlyWritesCut(start, ops[..|ops| - 1]); }
  }

  /** A writer that falls behind, or an event loop that is missing, fails the spool without losing
      anything: as long as no write fails, everything accepted is there. */
  lemma FailureAloneLosesNothing(events: int, bytes: int, pendingChunks: int, ops: seq<Op>)
    requires Run(Init(events, bytes, pendingChunks), ops).Some? && forall op | op in ops :: !op.WriteFailed?
    ensures var (s, log) := Run(Init(events, bytes, pendingChunks), ops).value; Contents(s) == log.accepted
  {
    OnlyWritesCut(Init(events, bytes, pendingChunks), ops);
    EveryInterleaving(events, bytes, pendingChunks, ops);
  }

  lemma RunNext(start: State, ops: seq<Op>, op: Op)
    requires Run(start, ops).Some? && Enabled(Run(start, ops).value.0, op)
    ensures var (s, log) := Run(start, ops).value;
            Run(start, ops + [op]) == Some((Step(s, op), Logged(s, log, op)))
  {
    assert (ops + [op])[..|ops|] == ops;
  }

  lemma TwoAppends(start: State, a: Event, b: Event)
    requires start == Init(2, a.bytes + b.bytes + 1, 1)
    ensures AppendEvent(start, a, true) == Note(start, a)
    ensures var s := AppendEvent(Note(start, a), b, true);
            s.pending == [[a, b]] && s.memory == [] && s.flushing && s.writing.None? && s.file.None? && !s.failed
  {
    assert Note(start, a).memory == [a];
    assert Note(Note(start, a), b).memory == [a, b];
  }

  lemma CutChunk(s: State, a: Event, b: Event)
    requires s.pending == [[a, b]] && s.memory == [] && s.flushing && s.writing.None? && s.file.None?
    ensures Enabled(s, TakeChunk) && Enabled(Step(s, TakeChunk), WriteFailed(1))
    ensures CutsShort(Step(s, TakeChunk), WriteFailed(1))
    ensures Contents(Step(Step(s, TakeChunk), WriteFailed(1))) == [a]
  {
    var t := Step(Step(s, TakeChunk), WriteFailed(1));
    assert [a, b][..1] == [a];
    assert FileEvents(t) == [a] && Flatten(t.pending) == [];
  }

  /** A disk that fills up half-way through a chunk: one event is written and the other is lost. */
  lemma CutLosesEvents(a: Event, b: Event) returns (ops: seq<Op>)
    ensures var end := Run(Init(2, a.bytes + b.bytes + 1, 1), ops);
            end.Some? && end.value.1 == Log([a, b], true) && Contents(end.value.0) == [a]
  {
    var start := Init(2, a.bytes + b.bytes + 1, 1);
    TwoAppends(start, a, b);
    RunNext(start, [], Append(a, true));
    RunNext(start, [] + [Append(a, true)], Append(b, true));
    ops := [] + [Append(a, true)] + [Append(b, true)];
    CutChunk(Run(start, ops).value.0, a, b);
    RunNext(start, ops, TakeChunk);
    RunNext(start, ops + [TakeChunk], WriteFailed(1));
    ops := ops + [TakeChunk] + [WriteFailed(1)];
    assert [] + [a] + [b] + [] + [] == [a, b];
  }

  // ---- The spool object ----

  /** What a write comes to: the whole chunk is written, or it fails after some of its events. */
  function WriteOp(outcome: Option<nat>, chunk: seq<Event>): Op {
    match outcome
    case None => ChunkWritten
    case Some(written) => WriteFailed(if written < |chunk| then written else |chunk|)
  }

  datatype Snapshot = Snapshot(durationMs: int, deviceTypes: set<string>, eventCount: nat,
                               spool: Option<seq<Event>>, memory: seq<Event>)

  /** Iterating a snapshot reads the spool file, then the events left in memory. */
  method IterEvents(snapshot: Snapshot) returns (events: seq<Event>)
    ensures events == (if snapshot.spool.Some? then snapshot.spool.value else []) + snapshot.memory
  {
    events := [];
    if snapshot.spool.Some? {
      for i := 0 to |snapshot.spool.value|
        invariant events == snapshot.spool.value[..i]
      {
        events := events + [snapshot.spool.value[i]];
      }
    }
    ghost var fromFile := events;
    for i := 0 to |snapshot.memory|
      invariant events == fromFile + snapshot.memory[..i]
    {
      events := events + [snapshot.memory[i]];
    }
    assert snapshot.memory[..|snapshot.memory|] == snapshot.memory;
  }

  class RecordingSpool {
    var limits: Limits
    var memory: seq<Event>
    var memoryBytes: nat
    var pending: seq<seq<Event>>
    var flushing: bool
    var writing: Option<seq<Event>>
    var file: Option<seq<Event>>
    var failed: bool
    var eventCount: nat
    var durationMs: int
    var deviceTypes: set<string>
    /** How the disk takes the writes: the k-th succeeds, or fails after some events. */
    const disk: nat -> Option<nat>
    var writes: nat
    ghost var log: Log

    ghost function Abs(): State
      reads this
    {
      State(limits, memory, memoryBytes, pending, flushing, writing, file, failed, eventCount, durationMs, deviceTypes)
    }

    ghost predicate Valid()
      reads this
    {
      Inv(Abs(), log)
    }

    constructor (eventLimit: int, byteLimit: int, maxPending: int, disk: nat -> Option<nat>)
      ensures Valid() && Abs() == Init(eventLimit, byteLimit, maxPending) && log == NO_LOG
      ensures limits == Limits(Max(1, eventLimit), Max(1, byteLimit), Max(1, maxPending))
    {
      this.disk, writes := disk, 0;
      limits := Limits(AtLeastOne(eventLimit), AtLeastOne(byteLimit), AtLeastOne(maxPending));
      memory, memoryBytes, pending, flushing, writing, file := [], 0, [], false, None, None;
      failed, eventCount, durationMs, deviceTypes, log := false, 0, 0, {}, NO_LOG;
    }

    method Append(e: Event, hasLoop: bool)
      requires Valid()
      modifies this
      ensures Valid() && Abs() == AppendEvent(old(Abs()), e, hasLoop)
      ensures log == Logged(old(Abs()), old(log), Op.Append(e, hasLoop))
    {
      StepKeeps(Abs(), log, Op.Append(e, hasLoop));
      log := Logged(Abs(), log, Op.Append(e, hasLoop));
      AppendInPlace(e, hasLoop);
    }

    method AppendInPlace(e: Event, hasLoop: bool)
      modifies this`memory, this`memoryBytes, this`pending, this`flushing, this`failed,
               this`eventCount, this`durationMs, this`deviceTypes
      ensures Abs() == AppendEvent(old(Abs()), e, hasLoop)
    {
      if failed { return; }
      NoteEvent(e);
      if |memory| >= limits.events || memoryBytes >= limits.bytes {
        QueueInPlace(hasLoop);
      }
    }

    method NoteEvent(e: Event)
      modifies this`memory, this`memoryBytes, this`eventCount, this`durationMs, this`deviceTypes
      ensures Abs() == Note(old(Abs()), e)
    {
      memory := memory + [e];
      memoryBytes := memoryBytes + e.bytes;
      eventCount := eventCount + 1;
      durationMs := Max(durationMs, Millis(e.tUs));
      if e.deviceType != "" {
        deviceTypes := deviceTypes + {e.deviceType};
      }
    }

    /** Move the memory to the queue. No event is lost or reordered, even when the spool fails
        because the queue is full or no writer can be started; the queue never grows over its limit,
        and unless the spool fails the memory is free and a writer runs. */
    method QueueMemoryChunk(hasLoop: bool)
      modifies this`memory, this`memoryBytes, this`pending, this`flushing, this`failed
      ensures Abs() == QueueMemory(old(Abs()), hasLoop)
      ensures Contents(Abs()) == old(Contents(Abs()))
      ensures |pending| <= if old(|pending|) < limits.pendingChunks then limits.pendingChunks else old(|pending|)
      ensures !failed && old(memory) != [] ==> memory == [] && flushing
    {
      QueueContents(Abs(), hasLoop);
      QueueInPlace(hasLoop);
    }

    method QueueInPlace(hasLoop: bool)
      modifies this`memory, this`memoryBytes, this`pending, this`flushing, this`failed
      ensures Abs() == QueueMemory(old(Abs()), hasLoop)
    {
      if memory == [] { return; }
      if |pending| >= limits.pendingChunks {
        failed := true;
        return;
      }
      pending := pending + [memory];
      memory, memoryBytes := [], 0;
      if !flushing {
        if hasLoop { flushing := true; } else { failed := true; }
      }
    }

    /** Some write since then has failed. */
    ghost predicate WriteFails(from: nat)
      reads this
    {
      exists k | from <= k < writes :: disk(k).Some?
    }

    /** Since then no event was accepted, and the spool has failed only if a write did. */
    ghost predicate FailsByWrites(failedBefore: bool, accepted: seq<Event>, from: nat)
      reads this
    {
      && log.accepted == accepted && writes >= from
      && (failed <==> failedBefore || WriteFails(from))
    }

    /** Run the writer until it exits; the spool fails if and only if a write does. */
    method AwaitWriter()
      requires Shape(Abs())
      modifies this`pending, this`flushing, this`writing, this`file, this`failed, this`writes,
               this`log
      ensures Shape(Abs()) && !flushing && writing.None? && (!failed ==> pending == [])
      ensures old(Ledger(Abs(), log)) ==> Ledger(Abs(), log)
      ensures FailsByWrites(old(failed), old(log).accepted, old(writes))
    {
      while flushing
        invariant Shape(Abs())
        invariant old(Ledger(Abs(), log)) ==> Ledger(Abs(), log)
        invariant FailsByWrites(old(failed), old(log).accepted, old(writes))
        decreases WorkLeft(Abs())
      {
        WriterTurn();
      }
    }

    method WriterTurn()
      requires Shape(Abs()) && flushing
      modifies this`pending, this`flushing, this`writing, this`file, this`failed, this`writes,
               this`log
      ensures Shape(Abs())
      ensures old(Ledger(Abs(), log)) ==> Ledger(Abs(), log)
      ensures FailsByWrites(old(failed), old(log).accepted, old(writes))
      ensures WorkLeft(Abs()) < old(WorkLeft(Abs()))
    {
      ghost var s := Abs();
      ghost var op := WriterStep();
      WriterKeeps(s, log, op);
      log := Logged(s, log, op);
    }

    /** One step of the writer task. */
    method WriterStep() returns (ghost op: Op)
      requires flushing
      modifies this`pending, this`flushing, this`writing, this`file, this`failed, this`writes
      ensures Enabled(old(Abs()), op) && !op.Append? && Abs() == Step(old(Abs()), op)
      ensures old(writing).Some? ==> op == WriteOp(disk(old(writes)), old(writing).value) && writes == old(writes) + 1
      ensures old(writing).None? ==> writes == old(writes)
      ensures failed <==> old(failed) || WriteFails(old(writes))
    {
      if writing.Some? {
        op := WriteChunk();
      } else if pending != [] {
        op := TakeChunk;
        writing, pending := Some(pending[0]), pending[1..];
      } else {
        op := WriterExits;
        flushing := false;
      }
    }

    /** Append the chunk to the file, or as much of it as the disk takes. */
    method WriteChunk() returns (ghost op: Op)
      requires writing.Some?
      modifies this`flushing, this`writing, this`file, this`failed, this`writes
      ensures op == WriteOp(disk(old(writes)), old(writing).value) && writes == old(writes) + 1
      ensures Enabled(old(Abs()), op) && Abs() == Step(old(Abs()), op)
    {
      var before := if file.Some? then file.value else [];
      op := WriteOp(disk(writes), writing.value);
      if disk(writes).None? {
        file, writing := Some(before + writing.value), None;
      } else {
        var written := if disk(writes).value < |writing.value| then disk(writes).value else |writing.value|;
        file := Some(before + writing.value[..written]);
        writing, failed, flushing := None, true, false;
      }
      writes := writes + 1;
    }

    method Discard()
      requires Shape(Abs())
      modifies this
      ensures memory == [] && pending == [] && file.None? && !flushing && writing.None?
      ensures writes >= old(writes)
    {
      memory, memoryBytes, pending := [], 0, [];
      AwaitWriter();
      pending, file := [], None;
    }

    /** Wait for the writer, and hand it the rest of the memory if there is a file by then. */
    method SettleOnce() returns (again: bool)
      requires Shape(Abs()) && Ledger(Abs(), log)
      modifies this`memory, this`memoryBytes, this`pending, this`flushing, this`writing, this`file, this`failed,
               this`writes, this`log
      ensures Shape(Abs()) && Ledger(Abs(), log) && FailsByWrites(old(failed), old(log).accepted, old(writes))
      ensures |memory| <= old(|memory|) && (again ==> |memory| < old(|memory|))
      ensures !again && !failed ==> pending == [] && writing.None? && (file.Some? ==> memory == [])
    {
      AwaitWriter();
      if failed || file.None? || memory == [] { return false; }
      QueueInvariant(Abs(), log);
      QueueMemoryChunk(true);
      again := true;
    }

    method SettleWriter()
      requires Shape(Abs()) && Ledger(Abs(), log)
      modifies this`memory, this`memoryBytes, this`pending, this`flushing, this`writing, this`file, this`failed,
               this`writes, this`log
      ensures Shape(Abs()) && Ledger(Abs(), log) && FailsByWrites(old(failed), old(log).accepted, old(writes))
      ensures !failed ==> pending == [] && writing.None? && (file.Some? ==> memory == [])
    {
      var again := !failed;
      while again
        invariant Shape(Abs()) && Ledger(Abs(), log) && FailsByWrites(old(failed), old(log).accepted, old(writes))
        invariant !again && !failed ==> pending == [] && writing.None? && (file.Some? ==> memory == [])
        decreases |memory|, again
      {
        again := SettleOnce();
        again := again && !failed;
      }
    }

    /** Finish recording, with no appends going on. It fails if and only if the spool had failed or a
        write fails now, and then nothing is kept. Otherwise the snapshot holds exactly the accepted
        events, in order, with a matching summary. */
    method Finish() returns (r: Result<Snapshot>)
      requires Valid()
      modifies this
      ensures r.Err? <==> old(failed) || WriteFails(old(writes))
      ensures r.Err? ==> memory == [] && pending == [] && file.None?
      ensures r.Ok? ==> Holds(r.value, old(log).accepted) && (r.value.spool.Some? ==> r.value.memory == [])
    {
      SettleWriter();
      if failed {
        Discard();
        return Err("Recording spool failed");
      }
      FinishedContents(Abs(), log);
      DurationFacts(log.accepted);
      r := Ok(Snapshot(durationMs, deviceTypes, eventCount, file, memory));
      memory, memoryBytes, file := [], 0, None;
    }
  }

  /** The snapshot iterates over exactly these events and summarises them. */
  ghost predicate Holds(snapshot: Snapshot, events: seq<Event>) {
    && (if snapshot.spool.Some? then snapshot.spool.value else []) + snapshot.memory == events
    && snapshot.eventCount == |events| && DurationIs(events, snapshot.durationMs)
    && snapshot.deviceTypes == (set e | e in events && e.deviceType != "" :: e.deviceType)
  }

  lemma QueueInvariant(s: State, log: Log)
    requires Shape(s) && Ledger(s, log) && !s.failed && s.pending == []
    ensures Shape(QueueMemory(s, true)) && Ledger(QueueMemory(s, true), log) && !QueueMemory(s, true).failed
  {
    QueueContents(s, true);
  }

  lemma FinishedContents(s: State, log: Log)
    requires Ledger(s, log) && !s.failed && s.pending == [] && s.writing.None?
    ensures FileEvents(s) + s.memory == log.accepted
  {
    assert FileEvents(s) + [] + [] + s.memory == FileEvents(s) + s.memory;
  }
}
