/** The reducer that rebuilds the state of every operation from the stored events. */
module OperationLog {
  import opened Outcomes
  import opened Text

  datatype Status = Started | Finished | Interrupted

  datatype Record = Record(
    operation: string,
    kind: string,
    status: Status,
    turn: string,
    step: string,
    call: string,
    parent: string,
    startedAt: string,
    finishedAt: string,
    reason: string,
    retryable: bool,
    metadata: map<string, string>,
    result: map<string, string>)
  {
    predicate Terminal() {
      !status.Started?
    }
  }

  /** The parts of a payload that the reducer reads; a missing text is empty. */
  datatype Payload = Payload(
    operation: string,
    kind: string,
    turn: string,
    step: string,
    call: string,
    parent: string,
    startedAt: string,
    finishedAt: string,
    reason: string,
    retryable: bool,
    metadata: map<string, string>,
    result: map<string, string>)
  {
    function Key(): string {
      Strip(operation)
    }
  }

  /** The three event types that the reducer reads, and all the others. */
  datatype EventType = OperationStarted | OperationFinished | OperationInterrupted | OtherType(name: string)

  datatype StoredEvent = StoredEvent(eventType: EventType, payload: Payload, ts: string)

  datatype LogState = LogState(operations: map<string, Record>, order: seq<string>)

  const EMPTY_LOG := LogState(map[], [])

  const INCOMPLETE := "restore_incomplete_operation"

  // ---------------------------------------------------------- specification

  function Or(text: string, fallback: string): string {
    if text == "" then fallback else text
  }

  function Merge(record: Record, existing: Record): Record {
    existing.(kind := Or(record.kind, existing.kind),
              turn := Or(record.turn, existing.turn),
              step := Or(record.step, existing.step),
              call := Or(record.call, existing.call),
              parent := Or(record.parent, existing.parent),
              startedAt := Or(record.startedAt, existing.startedAt),
              retryable := record.retryable,
              metadata := existing.metadata + record.metadata)
  }

  function Put(state: LogState, key: string, record: Record): LogState {
    LogState(state.operations[key := record], if key in state.operations then state.order else state.order + [key])
  }

  function Remembered(state: LogState, record: Record): LogState {
    var key := record.operation;
    if key !in state.operations then Put(state, key, record)
    else if state.operations[key].Terminal() then state
    else Put(state, key, Merge(record, state.operations[key]))
  }

  function StartRecord(payload: Payload, ts: string): Record {
    Record(payload.Key(), Or(payload.kind, "operation"), Started, payload.turn, payload.step, payload.call,
           payload.parent, Or(payload.startedAt, ts), "", "", payload.retryable, payload.metadata, map[])
  }

  function MissingRecord(payload: Payload, ts: string): Record {
    Record(payload.Key(), Or(payload.kind, "operation"), Started, "", "", "", "", Or(payload.startedAt, ts), "", "",
           false, map[], map[])
  }

  function Finish(record: Record, payload: Payload, ts: string): Record {
    record.(status := Finished, finishedAt := Or(payload.finishedAt, ts), result := payload.result, reason := "")
  }

  function Interrupt(record: Record, payload: Payload, ts: string): Record {
    record.(status := Interrupted, finishedAt := Or(payload.finishedAt, ts),
            reason := Or(payload.reason, "operation_interrupted"), retryable := payload.retryable,
            result := payload.result)
  }

  function Existing(state: LogState, payload: Payload, ts: string): Record {
    if payload.Key() in state.operations then state.operations[payload.Key()] else MissingRecord(payload, ts)
  }

  function Applied(state: LogState, event: StoredEvent): LogState {
    var payload := event.payload;
    var key := payload.Key();
    if key == "" then state
    else if event.eventType.OperationStarted? then Remembered(state, StartRecord(payload, event.ts))
    else if event.eventType.OperationFinished? then
      Put(state, key, Finish(Existing(state, payload, event.ts), payload, event.ts))
    else if event.eventType.OperationInterrupted? then
      Put(state, key, Interrupt(Existing(state, payload, event.ts), payload, event.ts))
    else state
  }

  function Folded(state: LogState, events: seq<StoredEvent>): LogState
    decreases |events|
  {
    if events == [] then state else Applied(Folded(state, events[..|events| - 1]), events[|events| - 1])
  }

  function Incomplete(record: Record): Record {
    if record.Terminal() then record
    else record.(status := Interrupted, reason := INCOMPLETE, retryable := false)
  }

  /** What a restore makes of the log: work that was not closed is marked incomplete. */
  function Restored(state: LogState): LogState {
    LogState(map key | key in state.operations :: Incomplete(state.operations[key]), state.order)
  }

  function StartedKeys(state: LogState): set<string> {
    set key | key in state.operations && state.operations[key].status.Started?
  }

  // ------------------------------------------------- what every fold keeps

  /** The order lists the known operations once each; every record carries its own key. */
  ghost predicate WellFormed(state: LogState) {
    && (forall key | key in state.order :: key in state.operations)
    && (forall key | key in state.operations :: key in state.order)
    && (forall i, j | 0 <= i < j < |state.order| :: state.order[i] != state.order[j])
    && (forall key | key in state.operations :: state.operations[key].operation == key && key != "" && Stripped(key))
  }

  lemma PutKeeps(state: LogState, key: string, record: Record)
    requires WellFormed(state) && key != "" && Stripped(key) && record.operation == key
    ensures WellFormed(Put(state, key, record))
  {
  }

  /** An event touches the record of its own operation only, and never opens it again. */
  lemma AppliedPuts(state: LogState, event: StoredEvent) returns (record: Record)
    requires WellFormed(state)
    ensures var key := event.payload.Key();
            Applied(state, event) == state
            || (key != "" && record.operation == key && Applied(state, event) == Put(state, key, record)
                && (key in state.operations && state.operations[key].Terminal() ==> Keeps(state.operations[key], record)))
  {
    var payload, ts := event.payload, event.ts;
    record := Existing(state, payload, ts);
    match event.eventType
    case OperationStarted =>
      var start := StartRecord(payload, ts);
      record := if payload.Key() in state.operations then Merge(start, record) else start;
    case OperationFinished => record := Finish(record, payload, ts);
    case OperationInterrupted => record := Interrupt(record, payload, ts);
    case OtherType(_) =>
  }

  lemma AppliedKeeps(state: LogState, event: StoredEvent)
    requires WellFormed(state)
    ensures WellFormed(Applied(state, event))
  {
    var record := AppliedPuts(state, event);
    if Applied(state, event) != state {
      PutKeeps(state, event.payload.Key(), record);
    }
  }

  /** What stays of a closed operation: it is closed, and began as it did. */
  predicate Keeps(before: Record, after: Record) {
    after.Terminal() && after.startedAt == before.startedAt && after.metadata == before.metadata
    && after.call == before.call && after.kind == before.kind
  }

  lemma {:induction false} FoldedKeeps(state: LogState, events: seq<StoredEvent>)
    requires WellFormed(state)
    ensures WellFormed(Folded(state, events))
    decreases |events|
  {
    if events != [] {
      FoldedKeeps(state, events[..|events| - 1]);
      AppliedKeeps(Folded(state, events[..|events| - 1]), events[|events| - 1]);
    }
  }

  /** A closed operation stays closed, whatever is stored later, and keeps the start, the
      kind and the metadata it was recorded with. */
  lemma {:induction false} TerminalForever(state: LogState, events: seq<StoredEvent>, key: string)
    requires WellFormed(state) && key in state.operations && state.operations[key].Terminal()
    ensures key in Folded(state, events).operations
    ensures Keeps(state.operations[key], Folded(state, events).operations[key])
    decreases |events|
  {
    if events != [] {
      var earlier, last := events[..|events| - 1], events[|events| - 1];
      TerminalForever(state, earlier, key);
      FoldedKeeps(state, earlier);
      var _ := AppliedPuts(Folded(state, earlier), last);
    }
  }

  lemma {:induction false} FoldedOne(state: LogState, events: seq<StoredEvent>, event: StoredEvent)
    ensures Folded(state, events + [event]) == Applied(Folded(state, events), event)
  {
    assert (events + [event])[..|events|] == events;
  }

  // ------------------------------------- a record, told from the log alone

  predicate About(event: StoredEvent, key: string) {
    key != "" && Strip(event.payload.operation) == key && !event.eventType.OtherType?
  }

  predicate Opens(event: StoredEvent, key: string) {
    About(event, key) && event.eventType.OperationStarted?
  }

  predicate Closes(event: StoredEvent, key: string) {
    About(event, key) && !event.eventType.OperationStarted?
  }

  /** The last event that closes the operation. */
  function LastClosing(events: seq<StoredEvent>, key: string): (closing: Option<StoredEvent>)
    ensures closing.None? <==> forall e | e in events :: !Closes(e, key)
    ensures closing.Some? ==> closing.value in events && Closes(closing.value, key)
    decreases |events|
  {
    if events == [] then None
    else
      var n := |events| - 1;
      assert events == events[..n] + [events[n]];
      if Closes(events[n], key) then Some(events[n]) else LastClosing(events[..n], key)
  }

  /** The events that start the operation and come before any that closes it. */
  function Openings(events: seq<StoredEvent>, key: string): seq<StoredEvent>
    decreases |events|
  {
    if events == [] then []
    else
      var n := |events| - 1;
      Openings(events[..n], key)
      + if Opens(events[n], key) && LastClosing(events[..n], key).None? then [events[n]] else []
  }

  /** The last of several texts that is not empty. */
  function LastGiven(texts: seq<string>): string
    decreases |texts|
  {
    if texts == [] then ""
    else if texts[|texts| - 1] != "" then texts[|texts| - 1]
    else LastGiven(texts[..|texts| - 1])
  }

  function Texts(events: seq<StoredEvent>, text: StoredEvent -> string): seq<string> {
    seq(|events|, i requires 0 <= i < |events| => text(events[i]))
  }

  /** Later metadata of one name replaces earlier. */
  function MergedMetadata(events: seq<StoredEvent>): map<string, string>
    decreases |events|
  {
    if events == [] then map[] else MergedMetadata(events[..|events| - 1]) + events[|events| - 1].payload.metadata
  }

  /** How an operation ended: by the last event that closes it, if there is one. */
  ghost predicate EndTold(record: Record, events: seq<StoredEvent>, key: string) {
    match LastClosing(events, key)
    case None => record.status.Started? && record.finishedAt == "" && record.reason == "" && record.result == map[]
    case Some(last) =>
      && record.result == last.payload.result
      && record.finishedAt == (if last.payload.finishedAt != "" then last.payload.finishedAt else last.ts)
      && if last.eventType.OperationFinished? then record.status.Finished? && record.reason == ""
         else
           && record.status.Interrupted? && record.retryable == last.payload.retryable
           && record.reason == (if last.payload.reason != "" then last.payload.reason else "operation_interrupted")
  }

  /** The first event that says anything about the operation. */
  function FirstAbout(events: seq<StoredEvent>, key: string): (first: Option<StoredEvent>)
    ensures first.Some? <==> exists e :: e in events && About(e, key)
    decreases |events|
  {
    if events == [] then None
    else
      var n := |events| - 1;
      assert events == events[..n] + [events[n]];
      var earlier := FirstAbout(events[..n], key);
      if earlier.Some? then earlier else if About(events[n], key) then Some(events[n]) else None
  }

  /** How an operation began: by the events that start it before it is first closed, each of
      them adding to what was known; or by being closed, if nothing has started it before. */
  ghost predicate BeginningTold(record: Record, events: seq<StoredEvent>, key: string) {
    var openings, first := Openings(events, key), FirstAbout(events, key);
    if openings != [] then
      && Said(record, openings)
      && (LastClosing(events, key).None? ==> record.retryable == openings[|openings| - 1].payload.retryable)
    else
      && first.Some? && LastClosing(events, key).Some?
      && record.turn == record.step == record.call == record.parent == "" && record.metadata == map[]
      && record.kind == KindOf(first.value) && record.startedAt == StartOf(first.value)
  }

  /** What the starts of an operation say of it. */
  ghost predicate Said(record: Record, openings: seq<StoredEvent>)
    requires openings != []
  {
    && record.turn == LastGiven(Texts(openings, TurnOf))
    && record.step == LastGiven(Texts(openings, StepOf))
    && record.call == LastGiven(Texts(openings, CallOf))
    && record.parent == LastGiven(Texts(openings, ParentOf))
    && record.kind == KindOf(openings[|openings| - 1])
    && record.startedAt == LastGiven(Texts(openings, StartOf))
    && record.metadata == MergedMetadata(openings)
  }

  function TurnOf(event: StoredEvent): string {
    event.payload.turn
  }

  function StepOf(event: StoredEvent): string {
    event.payload.step
  }

  function CallOf(event: StoredEvent): string {
    event.payload.call
  }

  function ParentOf(event: StoredEvent): string {
    event.payload.parent
  }

  function KindOf(event: StoredEvent): string {
    if event.payload.kind != "" then event.payload.kind else "operation"
  }

  function StartOf(event: StoredEvent): string {
    if event.payload.startedAt != "" then event.payload.startedAt else event.ts
  }

  /** A record as the log tells it. */
  ghost predicate Told(record: Record, events: seq<StoredEvent>, key: string) {
    record.operation == key && EndTold(record, events, key) && BeginningTold(record, events, key)
  }

  lemma TextsNext(events: seq<StoredEvent>, event: StoredEvent, text: StoredEvent -> string)
    ensures LastGiven(Texts(events + [event], text)) == if text(event) != "" then text(event) else LastGiven(Texts(events, text))
  {
    assert Texts(events + [event], text) == Texts(events, text) + [text(event)];
    assert (Texts(events, text) + [text(event)])[..|events|] == Texts(events, text);
  }

  lemma NextEvent(events: seq<StoredEvent>, event: StoredEvent, key: string)
    ensures LastClosing(events + [event], key) == if Closes(event, key) then Some(event) else LastClosing(events, key)
    ensures Openings(events + [event], key)
         == if Opens(event, key) && LastClosing(events, key).None? then Openings(events, key) + [event]
            else Openings(events, key)
    ensures FirstAbout(events + [event], key)
         == if FirstAbout(events, key).Some? then FirstAbout(events, key) else if About(event, key) then Some(event) else None
  {
    assert (events + [event])[..|events|] == events;
  }

  lemma MetadataNext(events: seq<StoredEvent>, event: StoredEvent)
    ensures MergedMetadata(events + [event]) == MergedMetadata(events) + event.payload.metadata
  {
    assert (events + [event])[..|events|] == events;
  }

  /** A start adds to what earlier starts have said. */
  lemma OneMoreOpening(record: Record, openings: seq<StoredEvent>, event: StoredEvent, merged: Record)
    requires openings != [] && Said(record, openings)
    requires merged == Merge(StartRecord(event.payload, event.ts), record)
    ensures Said(merged, openings + [event])
  {
    TextsNext(openings, event, TurnOf);
    TextsNext(openings, event, StepOf);
    TextsNext(openings, event, CallOf);
    TextsNext(openings, event, ParentOf);
    TextsNext(openings, event, StartOf);
    MetadataNext(openings, event);
    hide LastGiven, Texts, MergedMetadata, Strip;
  }

  lemma FirstOpening(event: StoredEvent)
    ensures Said(StartRecord(event.payload, event.ts), [event])
  {
    TextsNext([], event, TurnOf);
    TextsNext([], event, StepOf);
    TextsNext([], event, CallOf);
    TextsNext([], event, ParentOf);
    TextsNext([], event, StartOf);
    MetadataNext([], event);
    assert [] + [event] == [event];
    hide Texts, Strip;
  }

  /** What the state knows of an operation is what the log tells. */
  ghost predicate KnownAsTold(state: LogState, events: seq<StoredEvent>, key: string) {
    && (key in state.operations <==> FirstAbout(events, key).Some?)
    && (key in state.operations ==> Told(state.operations[key], events, key))
  }

  /** What an event makes of the record of an operation. */
  function RecordAfter(state: LogState, event: StoredEvent, key: string): Option<Record> {
    var known := if key in state.operations then Some(state.operations[key]) else None;
    if !About(event, key) then known
    else if Opens(event, key) then
      match known
      case None => Some(StartRecord(event.payload, event.ts))
      case Some(record) =>
        Some(if record.Terminal() then record else Merge(StartRecord(event.payload, event.ts), record))
    else
      var record := if known.Some? then known.value else MissingRecord(event.payload, event.ts);
      Some(if event.eventType.OperationFinished? then Finish(record, event.payload, event.ts)
           else Interrupt(record, event.payload, event.ts))
  }

  lemma RecordAfterEvent(state: LogState, event: StoredEvent, key: string)
    ensures var after, record := Applied(state, event), RecordAfter(state, event, key);
            if key in after.operations then record == Some(after.operations[key]) else record.None?
  {
    hide Strip, Merge, Finish, Interrupt, Or;
  }

  ghost predicate RecordTold(record: Option<Record>, events: seq<StoredEvent>, key: string) {
    && (record.Some? <==> FirstAbout(events, key).Some?)
    && (record.Some? ==> Told(record.value, events, key))
  }

  lemma OtherEvent(state: LogState, events: seq<StoredEvent>, event: StoredEvent, key: string)
    requires KnownAsTold(state, events, key) && !About(event, key)
    ensures RecordTold(RecordAfter(state, event, key), events + [event], key)
  {
    NextEvent(events, event, key);
    hide Said, About, LastClosing, Openings, FirstAbout;
  }

  lemma StartEvent(state: LogState, events: seq<StoredEvent>, event: StoredEvent, key: string)
    requires KnownAsTold(state, events, key) && Opens(event, key)
    ensures RecordTold(RecordAfter(state, event, key), events + [event], key)
  {
    NextEvent(events, event, key);
    NoOpenings(events, key);
    if key !in state.operations {
      FirstStart(events, event, key);
    } else if LastClosing(events, key).None? {
      LaterStart(state.operations[key], events, event, key);
    } else {
      StartIgnored(state.operations[key], events, event, key);
    }
    hide Told, Strip, LastClosing, Openings, FirstAbout, Merge, StartRecord;
  }

  lemma FirstStart(events: seq<StoredEvent>, event: StoredEvent, key: string)
    requires FirstAbout(events, key).None? && Opens(event, key)
    ensures Told(StartRecord(event.payload, event.ts), events + [event], key)
  {
    NextEvent(events, event, key);
    NoOpenings(events, key);
    hide Strip, LastClosing, Openings, FirstAbout, Texts, LastGiven, MergedMetadata, Said, KindOf, StartOf;
    FirstOpening(event);
    assert [] + [event] == [event];
  }

  lemma LaterStart(record: Record, events: seq<StoredEvent>, event: StoredEvent, key: string)
    requires Told(record, events, key) && LastClosing(events, key).None? && FirstAbout(events, key).Some? && Opens(event, key)
    ensures Told(Merge(StartRecord(event.payload, event.ts), record), events + [event], key)
    ensures !record.Terminal()
  {
    NextEvent(events, event, key);
    NoOpenings(events, key);
    hide Strip, LastClosing, Openings, FirstAbout, Texts, LastGiven, MergedMetadata, Said, KindOf, StartOf;
    OneMoreOpening(record, Openings(events, key), event, Merge(StartRecord(event.payload, event.ts), record));
  }

  lemma StartIgnored(record: Record, events: seq<StoredEvent>, event: StoredEvent, key: string)
    requires Told(record, events, key) && LastClosing(events, key).Some? && FirstAbout(events, key).Some? && Opens(event, key)
    ensures Told(record, events + [event], key) && record.Terminal()
  {
    NextEvent(events, event, key);
    hide Strip, LastClosing, Openings, FirstAbout, Texts, LastGiven, MergedMetadata, Said, KindOf, StartOf;
  }

  lemma NoOpenings(events: seq<StoredEvent>, key: string)
    ensures FirstAbout(events, key).None? ==> Openings(events, key) == [] && LastClosing(events, key).None?
    ensures FirstAbout(events, key).Some? && Openings(events, key) == [] ==> LastClosing(events, key).Some?
    decreases |events|
  {
    hide Strip;
    if events != [] {
      NoOpenings(events[..|events| - 1], key);
    }
  }

  lemma CloseEvent(state: LogState, events: seq<StoredEvent>, event: StoredEvent, key: string)
    requires KnownAsTold(state, events, key) && Closes(event, key)
    ensures RecordTold(RecordAfter(state, event, key), events + [event], key)
  {
    NextEvent(events, event, key);
    NoOpenings(events, key);
    hide Strip, LastClosing, Openings, FirstAbout, LastGiven, Texts, MergedMetadata;
  }

  /** Every record is as the log tells it: whether an operation is known, how it began, and
      how it ended. It is finished or interrupted if and only if the last event that closes it
      finishes or interrupts it, and started if and only if none closes it. */
  lemma {:induction false} LogTells(events: seq<StoredEvent>, key: string)
    ensures KnownAsTold(Folded(EMPTY_LOG, events), events, key)
    decreases |events|
  {
    if events != [] {
      var n := |events| - 1;
      LogTells(events[..n], key);
      assert events[..n] + [events[n]] == events;
      RecordAfterEvent(Folded(EMPTY_LOG, events[..n]), events[n], key);
      hide Applied, Told, RecordAfter, About;
      if Opens(events[n], key) {
        StartEvent(Folded(EMPTY_LOG, events[..n]), events[..n], events[n], key);
      } else if Closes(events[n], key) {
        CloseEvent(Folded(EMPTY_LOG, events[..n]), events[..n], events[n], key);
      } else {
        OtherEvent(Folded(EMPTY_LOG, events[..n]), events[..n], events[n], key);
      }
    }
  }

  /** In terms of status alone. */
  lemma StatusTold(events: seq<StoredEvent>, key: string)
    requires key in Folded(EMPTY_LOG, events).operations
    ensures var status, last := Folded(EMPTY_LOG, events).operations[key].status, LastClosing(events, key);
            && (status.Started? <==> forall e | e in events :: !Closes(e, key))
            && (status.Finished? <==> last.Some? && last.value.eventType.OperationFinished?)
            && (status.Interrupted? <==> last.Some? && last.value.eventType.OperationInterrupted?)
  {
    LogTells(events, key);
    hide LastClosing, FirstAbout, BeginningTold, Folded, Strip;
  }

  /** The same after a restore has swept over the log: what no event closes is interrupted as
      incomplete, and everything else is as the log tells it. */
  ghost predicate SweptAsTold(state: LogState, events: seq<StoredEvent>, key: string) {
    && (key in state.operations <==> FirstAbout(events, key).Some?)
    && (key in state.operations ==>
          var record := state.operations[key];
          if LastClosing(events, key).Some? then Told(record, events, key)
          else
            && record.status.Interrupted? && record.reason == "restore_incomplete_operation" && !record.retryable
            && record.operation == key && record.finishedAt == "" && record.result == map[]
            && Openings(events, key) != [] && Said(record, Openings(events, key)))
  }

  lemma RestoreTells(events: seq<StoredEvent>, key: string)
    ensures SweptAsTold(Restored(Folded(EMPTY_LOG, events)), events, key)
  {
    LogTells(events, key);
    hide LastClosing, FirstAbout, Openings, Folded, Strip, LastGiven, Texts, MergedMetadata;
  }

  // ---------------------------------------------------------- the reducer

  class OperationLogState {
    var operations: map<string, Record>
    var order: seq<string>

    function Value(): LogState
      reads this
    {
      LogState(operations, order)
    }

    constructor ()
      ensures Value() == EMPTY_LOG
    {
      operations, order := map[], [];
    }

    method Remember(record: Record)
      modifies this
      ensures Value() == Remembered(old(Value()), record)
    {
      var key := record.operation;
      if key !in operations {
        operations := operations[key := record];
        order := order + [key];
      } else if !operations[key].Terminal() {
        operations := operations[key := Merge(record, operations[key])];
      }
    }

    method Start(event: StoredEvent)
      requires event.eventType.OperationStarted?
      modifies this
      ensures Value() == Applied(old(Value()), event)
    {
      var key := event.payload.Key();
      if key == "" {
        return;
      }
      Remember(StartRecord(event.payload, event.ts));
    }

    method FinishOperation(event: StoredEvent)
      requires event.eventType.OperationFinished?
      modifies this
      ensures Value() == Applied(old(Value()), event)
    {
      var key := event.payload.Key();
      if key == "" {
        return;
      }
      if key !in operations {
        Remember(MissingRecord(event.payload, event.ts));
      }
      operations := operations[key := Finish(operations[key], event.payload, event.ts)];
    }

    method InterruptOperation(event: StoredEvent)
      requires event.eventType.OperationInterrupted?
      modifies this
      ensures Value() == Applied(old(Value()), event)
    {
      var key := event.payload.Key();
      if key == "" {
        return;
      }
      if key !in operations {
        Remember(MissingRecord(event.payload, event.ts));
      }
      operations := operations[key := Interrupt(operations[key], event.payload, event.ts)];
    }

    method InterruptUnfinished()
      requires WellFormed(Value())
      modifies this
      ensures Value() == Restored(old(Value()))
    {
      ghost var before := Value();
      NothingSwept(operations, order);
      hide Swept, Incomplete, WellFormed;
      for i := 0 to |order|
        invariant order == before.order && operations == Swept(before.operations, order[..i])
      {
        SweepOne(before, i);
        var key := order[i];
        if operations[key].status.Started? {
          operations := operations[key := Incomplete(operations[key])];
        }
      }
      SweepAll(before);
    }
  }

  /** The operations after the sweep has passed over `done`. */
  function Swept(operations: map<string, Record>, done: seq<string>): map<string, Record> {
    map key | key in operations :: if key in done then Incomplete(operations[key]) else operations[key]
  }

  lemma NothingSwept(operations: map<string, Record>, order: seq<string>)
    ensures Swept(operations, order[..0]) == operations
  {
  }

  lemma SweepOne(state: LogState, i: nat)
    requires WellFormed(state) && i < |state.order|
    ensures var key := state.order[i];
            && key in state.operations && key in Swept(state.operations, state.order[..i])
            && var record := Swept(state.operations, state.order[..i])[key];
               if record.status.Started? then
                 Swept(state.operations, state.order[..i + 1])
                   == Swept(state.operations, state.order[..i])[key := Incomplete(record)]
               else Swept(state.operations, state.order[..i + 1]) == Swept(state.operations, state.order[..i])
  {
    var key, done := state.order[i], state.order[..i];
    assert key in state.operations && key !in done;
    assert state.order[..i + 1] == done + [key];
    SweepMore(state.operations, done, key);
    var swept := Swept(state.operations, done);
    assert swept[key := swept[key]] == swept;
  }

  lemma SweepMore(operations: map<string, Record>, done: seq<string>, key: string)
    requires key in operations
    ensures Swept(operations, done + [key]) == Swept(operations, done)[key := Incomplete(operations[key])]
  {
  }

  lemma SweepAll(state: LogState)
    requires WellFormed(state)
    ensures Swept(state.operations, state.order[..|state.order|]) == Restored(state).operations
  {
    assert state.order[..|state.order|] == state.order;
  }

  /** Rebuilds the state from a log; restoring sessions closes what was left unfinished. */
  method Reduce(events: seq<StoredEvent>, closeUnfinished: bool) returns (state: OperationLogState)
    ensures fresh(state)
    ensures state.Value() == if closeUnfinished then Restored(Folded(EMPTY_LOG, events)) else Folded(EMPTY_LOG, events)
    ensures forall key ::
              if closeUnfinished then SweptAsTold(state.Value(), events, key) else KnownAsTold(state.Value(), events, key)
  {
    state := new OperationLogState();
    for i := 0 to |events|
      invariant fresh(state) && state.Value() == Folded(EMPTY_LOG, events[..i])
    {
      FoldedOne(EMPTY_LOG, events[..i], events[i]);
      assert events[..i + 1] == events[..i] + [events[i]];
      var event := events[i];
      if event.eventType.OperationStarted? {
        state.Start(event);
      } else if event.eventType.OperationFinished? {
        state.FinishOperation(event);
      } else if event.eventType.OperationInterrupted? {
        state.InterruptOperation(event);
      }
    }
    assert events[..|events|] == events;
    if closeUnfinished {
      FoldedKeeps(EMPTY_LOG, events);
      state.InterruptUnfinished();
    }
    AllTold(events);
  }

  lemma AllTold(events: seq<StoredEvent>)
    ensures forall key :: KnownAsTold(Folded(EMPTY_LOG, events), events, key)
    ensures forall key :: SweptAsTold(Restored(Folded(EMPTY_LOG, events)), events, key)
  {
    hide KnownAsTold, SweptAsTold, Restored, Folded;
    forall key
      ensures KnownAsTold(Folded(EMPTY_LOG, events), events, key)
      ensures SweptAsTold(Restored(Folded(EMPTY_LOG, events)), events, key)
    {
      LogTells(events, key);
      RestoreTells(events, key);
    }
  }
}
