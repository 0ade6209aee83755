/** What a restore finds: the log that a run has committed, read back by the reducer. */
module AgentRestore {
  import opened Outcomes
  import opened Text
  import opened OperationIds
  import opened AgentEffects
  import opened OperationLedger
  import opened AgentKernel
  import opened AgentServices
  import opened AgentRun
  import opened AgentLoop
  import opened AgentProgress
  import opened AgentInvariant
  import opened Interactions
  import opened InteractionLedger
  import Log = OperationLog

  /** `stored` is the event as it lies in the log: the operation is known by its text, and
      everything else about it is free. */
  predicate Stores(stored: Log.StoredEvent, event: Event) {
    if event.Operational() then
      && stored.payload.operation == Render(event.id)
      && (match event
          case OperationStarted(_, _, _, _, _) => stored.eventType.OperationStarted?
          case OperationFinished(_, _) => stored.eventType.OperationFinished?
          case _ => stored.eventType.OperationInterrupted?)
    else stored.eventType.OtherType?
  }

  ghost predicate AllStored(stored: seq<Log.StoredEvent>, events: seq<Event>) {
    |stored| == |events| && forall i | 0 <= i < |events| :: Stores(stored[i], events[i])
  }

  // ------------------------------------------- the reducer seen by its keys

  function ClosedKeys(state: Log.LogState): set<string> {
    set key | key in state.operations && state.operations[key].Terminal()
  }

  /** The reducer's keys behave like a ledger. */
  lemma StartKeys(state: Log.LogState, event: Log.StoredEvent, key: string)
    requires event.eventType.OperationStarted? && key == event.payload.Key() != ""
    ensures ClosedKeys(Log.Applied(state, event)) == ClosedKeys(state)
    ensures Log.StartedKeys(Log.Applied(state, event))
         == Log.StartedKeys(state) + (if key in ClosedKeys(state) then {} else {key})
  {
  }

  lemma CloseKeys(state: Log.LogState, event: Log.StoredEvent, key: string)
    requires event.eventType.OperationFinished? || event.eventType.OperationInterrupted?
    requires key == event.payload.Key() != ""
    ensures ClosedKeys(Log.Applied(state, event)) == ClosedKeys(state) + {key}
    ensures Log.StartedKeys(Log.Applied(state, event)) == Log.StartedKeys(state) - {key}
  {
  }

  /** Every key is that of some operation in `ids`. */
  ghost predicate Covers(ids: set<OperationId>, keys: set<string>) {
    forall key | key in keys :: exists id :: id in ids && LogKey(id) == key
  }

  ghost predicate OpenIn(ids: set<OperationId>, keys: set<string>) {
    forall id | id in ids :: Keyed(id) && (Clean(id) ==> LogKey(id) in keys)
  }

  ghost predicate ClosedIn(ids: set<OperationId>, keys: set<string>) {
    forall id | id in ids :: Keyed(id) && LogKey(id) in keys
  }

  /** Keys `started` and `closed` say of the operations what the ledger says. A patch may
      share its key with another patch, so of patches less is said. */
  ghost predicate KeysAgree(started: set<string>, closed: set<string>, ledger: Ledger) {
    && OpenIn(ledger.open, started) && Covers(ledger.open, started)
    && ClosedIn(ledger.closed, closed) && Covers(ledger.closed, closed)
  }

  ghost predicate Agrees(state: Log.LogState, ledger: Ledger) {
    KeysAgree(Log.StartedKeys(state), ClosedKeys(state), ledger)
  }

  lemma KeyNotEmpty(id: OperationId)
    requires Keyed(id)
    ensures LogKey(id) != ""
  {
    if id.PatchOp? {
      PatchKey(id);
    } else {
      CleanKey(id);
    }
  }

  lemma NewKey(started: set<string>, closed: set<string>, ledger: Ledger, id: OperationId)
    requires KeysAgree(started, closed, ledger) && Clean(id) && id !in ledger.closed
    ensures LogKey(id) !in closed
  {
    if LogKey(id) in closed {
      var other :| other in ledger.closed && LogKey(other) == LogKey(id);
      KeyInjective(id, other);
    }
  }

  lemma CoversMore(ids: set<OperationId>, keys: set<string>, id: OperationId)
    requires Covers(ids, keys)
    ensures Covers(ids + {id}, keys) && Covers(ids + {id}, keys + {LogKey(id)})
  {
    forall key | key in keys + {LogKey(id)} ensures exists other :: other in ids + {id} && LogKey(other) == key {
      if key == LogKey(id) {
        assert id in ids + {id};
      } else {
        var other :| other in ids && LogKey(other) == key;
        assert other in ids + {id};
      }
    }
  }

  lemma CoversLess(ids: set<OperationId>, keys: set<string>, id: OperationId)
    requires Covers(ids, keys)
    ensures Covers(ids - {id}, keys - {LogKey(id)})
  {
    forall key | key in keys - {LogKey(id)} ensures exists other :: other in ids - {id} && LogKey(other) == key {
      var other :| other in ids && LogKey(other) == key;
      assert other in ids - {id};
    }
  }

  lemma OpenInMore(ids: set<OperationId>, keys: set<string>, id: OperationId)
    requires OpenIn(ids, keys) && Keyed(id)
    ensures OpenIn(ids + {id}, keys + {LogKey(id)})
    ensures !Clean(id) ==> OpenIn(ids + {id}, keys)
  {
  }

  lemma OpenInLess(ids: set<OperationId>, keys: set<string>, id: OperationId)
    requires OpenIn(ids, keys) && Keyed(id)
    ensures OpenIn(ids - {id}, keys - {LogKey(id)})
  {
    forall other | other in ids - {id} && Clean(other) ensures LogKey(other) in keys - {LogKey(id)} {
      if LogKey(other) == LogKey(id) {
        KeyInjective(other, id);
      }
    }
  }

  lemma ClosedInMore(ids: set<OperationId>, keys: set<string>, id: OperationId)
    requires ClosedIn(ids, keys) && Keyed(id)
    ensures ClosedIn(ids + {id}, keys + {LogKey(id)})
  {
  }

  /** The start of an operation that is not closed. */
  lemma OpenAgrees(started: set<string>, closed: set<string>, ledger: Ledger, id: OperationId, after: set<string>)
    requires KeysAgree(started, closed, ledger) && Keyed(id) && id !in ledger.closed
    requires after == started + (if LogKey(id) in closed then {} else {LogKey(id)})
    ensures KeysAgree(after, closed, ledger.(open := ledger.open + {id}))
  {
    if Clean(id) {
      NewKey(started, closed, ledger, id);
    }
    OpenInMore(ledger.open, started, id);
    CoversMore(ledger.open, started, id);
    assert after == started || after == started + {LogKey(id)};
    hide Covers, OpenIn, ClosedIn, LogKey, Clean, Keyed;
  }

  lemma CloseAgrees(started: set<string>, closed: set<string>, ledger: Ledger, id: OperationId)
    requires KeysAgree(started, closed, ledger) && Keyed(id)
    ensures KeysAgree(started - {LogKey(id)}, closed + {LogKey(id)}, Ledger(ledger.open - {id}, ledger.closed + {id}))
  {
    hide Covers, OpenIn, ClosedIn, LogKey, Clean, Keyed;
    OpenInLess(ledger.open, started, id);
    CoversLess(ledger.open, started, id);
    ClosedInMore(ledger.closed, closed, id);
    CoversMore(ledger.closed, closed, id);
  }

  lemma RecordAgrees(state: Log.LogState, ledger: Ledger, stored: Log.StoredEvent, event: Event)
    requires Agrees(state, ledger) && Stores(stored, event) && (event.Operational() ==> Keyed(event.id))
    ensures Agrees(Log.Applied(state, stored), Record(ledger, event))
  {
    if event.Operational() {
      KeyNotEmpty(event.id);
      if event.OperationStarted? {
        StartKeys(state, stored, LogKey(event.id));
        if event.id !in ledger.closed {
          OpenAgrees(Log.StartedKeys(state), ClosedKeys(state), ledger, event.id,
                     Log.StartedKeys(Log.Applied(state, stored)));
        }
      } else {
        CloseKeys(state, stored, LogKey(event.id));
        CloseAgrees(Log.StartedKeys(state), ClosedKeys(state), ledger, event.id);
      }
    }
  }

  /** The reducer's fold of a stored log agrees with the ledger of the events in it. */
  lemma {:induction false} FoldAgrees(stored: seq<Log.StoredEvent>, events: seq<Event>)
    requires AllStored(stored, events) && AllKeyed(events)
    ensures Agrees(Log.Folded(Log.EMPTY_LOG, stored), Replay(EMPTY, events))
    decreases |events|
  {
    hide *;
    if events == [] {
      NothingStored(stored, events);
    } else {
      var n := |events| - 1;
      LastStored(stored, events);
      FoldAgrees(stored[..n], events[..n]);
      NextAgrees(stored[..n], events[..n], stored[n], events[n]);
      assert events[..n] + [events[n]] == events && stored[..n] + [stored[n]] == stored;
    }
  }

  lemma NothingStored(stored: seq<Log.StoredEvent>, events: seq<Event>)
    requires AllStored(stored, events) && events == []
    ensures Agrees(Log.Folded(Log.EMPTY_LOG, stored), Replay(EMPTY, events))
  {
    assert Log.Folded(Log.EMPTY_LOG, stored) == Log.EMPTY_LOG && Replay(EMPTY, events) == EMPTY;
  }

  lemma LastStored(stored: seq<Log.StoredEvent>, events: seq<Event>)
    requires AllStored(stored, events) && AllKeyed(events) && events != []
    ensures var n := |events| - 1;
            && |stored| == |events| && AllStored(stored[..n], events[..n]) && AllKeyed(events[..n])
            && Stores(stored[n], events[n]) && (events[n].Operational() ==> Keyed(events[n].id))
  {
    hide Stores, Keyed;
    assert events[|events| - 1] in events;
  }

  lemma NextAgrees(stored: seq<Log.StoredEvent>, events: seq<Event>, last: Log.StoredEvent, event: Event)
    requires Agrees(Log.Folded(Log.EMPTY_LOG, stored), Replay(EMPTY, events))
    requires Stores(last, event) && (event.Operational() ==> Keyed(event.id))
    ensures Agrees(Log.Folded(Log.EMPTY_LOG, stored + [last]), Replay(EMPTY, events + [event]))
  {
    hide Agrees, Stores, Keyed;
    Log.FoldedOne(Log.EMPTY_LOG, stored, last);
    ReplayConcat(EMPTY, events, [event]);
    ReplayOne(Replay(EMPTY, events), event);
    RecordAgrees(Log.Folded(Log.EMPTY_LOG, stored), Replay(EMPTY, events), last, event);
  }

  function Texts(ids: set<OperationId>): set<string> {
    set id | id in ids :: Render(id)
  }

  lemma StartedAreOpen(state: Log.LogState, ledger: Ledger)
    requires Agrees(state, ledger) && forall id | id in ledger.open :: !id.PatchOp?
    ensures Log.StartedKeys(state) == Texts(ledger.open)
  {
    forall id | id in ledger.open ensures Clean(id) && LogKey(id) == Render(id) {
      assert Keyed(id);
      CleanKey(id);
    }
    forall key | key in Log.StartedKeys(state) ensures key in Texts(ledger.open) {
      var id :| id in ledger.open && LogKey(id) == key;
    }
  }

  // ----------------------------------------------------------- the restore

  /** Exactly the records under `keys` are marked as incomplete; no other changes. */
  ghost predicate MarksExactly(before: Log.LogState, after: Log.LogState, keys: set<string>) {
    && after.order == before.order && after.operations.Keys == before.operations.Keys
    && keys <= before.operations.Keys
    && forall key | key in before.operations ::
         after.operations[key] == if key in keys then
           before.operations[key].(status := Log.Interrupted, reason := "restore_incomplete_operation", retryable := false)
         else before.operations[key]
  }

  lemma RestoreMarks(state: Log.LogState)
    ensures MarksExactly(state, Log.Restored(state), Log.StartedKeys(state))
    ensures Log.StartedKeys(Log.Restored(state)) == {}
  {
  }

  lemma RestoreOf(log: seq<Event>, stored: seq<Log.StoredEvent>)
    requires AllStored(stored, log) && AllKeyed(log)
    requires forall id | id in Replay(EMPTY, log).open :: !id.PatchOp?
    ensures var state := Log.Folded(Log.EMPTY_LOG, stored);
            var texts := Texts(Replay(EMPTY, log).open);
            Log.StartedKeys(state) == texts && MarksExactly(state, Log.Restored(state), texts)
  {
    var state := Log.Folded(Log.EMPTY_LOG, stored);
    FoldAgrees(stored, log);
    StartedAreOpen(state, Replay(EMPTY, log));
    RestoreMarks(state);
  }

  lemma NoPatchOpen(step: KernelStep, outside: set<OperationId>)
    requires Shaped(step) && forall id | id in outside :: !id.PatchOp?
    ensures forall id | id in outside + OpenAt(step) :: !id.PatchOp?
  {
  }

  /** A log as the core writes it. */
  ghost predicate WellMade(events: seq<Event>) {
    AllKeyed(events) && AnswersFirst(events)
  }

  /** A run whose first step tracks what `earlier` left. */
  ghost predicate Begins(earlier: seq<Event>, first: KernelStep, outside: set<OperationId>) {
    && Shaped(first) && first.effect.Some? && Steady(first.cursor)
    && Tracks(Replay(Replay(EMPTY, earlier), first.events), first, outside)
    && WellMade(earlier) && WellMade(first.events)
  }

  lemma {:induction false} RunKeyed(steps: seq<KernelStep>, ticks: seq<Tick>, limit: Option<int>)
    requires IsRun(steps, ticks, limit)
    requires Shaped(steps[0]) && Steady(steps[0].cursor) && AllKeyed(steps[0].events)
    ensures AllKeyed(Committed(steps))
    decreases |ticks|
  {
    var n := |ticks|;
    assert |steps| == n + 1;
    hide *;
    CommittedNext(steps);
    if n > 0 {
      LastTurn(steps, ticks, limit);
      RunKeyed(steps[..n], ticks[..n - 1], limit);
      RunForward(steps, ticks, limit, n - 1);
      TickPlain(steps[n - 1], ticks[n - 1], limit, steps[n]);
      PlainKeyed(Committed(steps[..n]), steps[n].events);
    }
  }

  lemma PlainKeyed(events: seq<Event>, more: seq<Event>)
    requires AllKeyed(events) && Plain(more)
    ensures AllKeyed(events + more)
  {
    hide Keyed;
  }

  lemma BeginsPlainly(earlier: seq<Event>, asked: Asked, first: KernelStep, outside: set<OperationId>)
    requires Begins(earlier, first, outside) && Admitted(NOBODY, earlier) == Some(asked)
    ensures ClosedWereAsked(Replay(EMPTY, earlier), asked)
    ensures forall id | id in outside :: !id.PatchOp?
  {
    AnsweredKept(EMPTY, NOBODY, earlier);
  }

  lemma CommittedOpen(earlier: seq<Event>, steps: seq<KernelStep>, ticks: seq<Tick>, limit: Option<int>,
                      outside: set<OperationId>)
    requires IsRun(steps, ticks, limit) && Admitted(NOBODY, earlier + Committed(steps)).Some?
    requires Begins(earlier, steps[0], outside)
    ensures |steps| == |ticks| + 1 && Shaped(steps[|ticks|])
    ensures Replay(EMPTY, earlier + Committed(steps)).open == outside + OpenAt(steps[|ticks|])
    ensures forall id | id in outside + OpenAt(steps[|ticks|]) :: !id.PatchOp?
  {
    AdmittedConcat(NOBODY, earlier, Committed(steps));
    var asked := Admitted(NOBODY, earlier).value;
    BeginsPlainly(earlier, asked, steps[0], outside);
    hide Replay, Admitted, ClosedWereAsked, Committed, Shaped, IsRun, AnswersFirst, AllKeyed, Apart, OpenAt, Steady;
    OpenOperations(Replay(EMPTY, earlier), asked, steps, ticks, limit, outside);
    ReplayConcat(EMPTY, earlier, Committed(steps));
    NoPatchOpen(steps[|ticks|], outside);
  }

  lemma LogKeyed(earlier: seq<Event>, steps: seq<KernelStep>, ticks: seq<Tick>, limit: Option<int>, outside: set<OperationId>)
    requires IsRun(steps, ticks, limit) && Begins(earlier, steps[0], outside)
    ensures AllKeyed(earlier + Committed(steps))
  {
    RunKeyed(steps, ticks, limit);
    hide Keyed, IsRun, Tracks, Shaped, Steady, AnswersFirst;
  }

  /** After a crash at any commit point of any run, the operations that the reducer finds
      started are those that the machine holds open there, and those outside the run; closing
      unfinished work marks exactly them. */
  lemma CrashRestore(earlier: seq<Event>, steps: seq<KernelStep>, ticks: seq<Tick>, limit: Option<int>,
                     outside: set<OperationId>, stored: seq<Log.StoredEvent>)
    requires IsRun(steps, ticks, limit) && Begins(earlier, steps[0], outside)
    requires Admitted(NOBODY, earlier + Committed(steps)).Some?
    requires AllStored(stored, earlier + Committed(steps))
    ensures |steps| == |ticks| + 1
    ensures var state := Log.Folded(Log.EMPTY_LOG, stored);
            var texts := Texts(outside + OpenAt(steps[|ticks|]));
            Log.StartedKeys(state) == texts && MarksExactly(state, Log.Restored(state), texts)
  {
    LogKeyed(earlier, steps, ticks, limit, outside);
    CommittedOpen(earlier, steps, ticks, limit, outside);
    hide *;
    RestoreOf(earlier + Committed(steps), stored);
  }

  // ------------------------------------------------------ runs inside a turn

  /** The log when the run of a turn starts: what came before, the start of the turn's
      operation, and messages. */
  function TurnLog(history: seq<Event>, turnId: string, messages: seq<Event>): seq<Event> {
    history + [OperationStarted(TurnOp(turnId), Turn, turnId, 0, "")] + messages
  }

  /** What is open outside the run: the turn too, unless an operation of its name was closed. */
  function OpenBeside(base: Ledger, turnId: string): set<OperationId> {
    base.open + if TurnOp(turnId) in base.closed then {} else {TurnOp(turnId)}
  }

  lemma TurnLedger(history: seq<Event>, turnId: string, messages: seq<Event>)
    requires Neutral(messages)
    ensures Replay(EMPTY, TurnLog(history, turnId, messages))
         == Ledger(OpenBeside(Replay(EMPTY, history), turnId), Replay(EMPTY, history).closed)
  {
    var start := OperationStarted(TurnOp(turnId), Turn, turnId, 0, "");
    NeutralTail(EMPTY, history + [start], messages);
    ReplayConcat(EMPTY, history, [start]);
    ReplayOne(Replay(EMPTY, history), start);
    hide Replay, Neutral;
  }

  lemma TurnWellMade(history: seq<Event>, turnId: string, messages: seq<Event>)
    requires WellMade(history) && NonBlank(turnId) && Neutral(messages)
    ensures WellMade(TurnLog(history, turnId, messages))
  {
    var start := [OperationStarted(TurnOp(turnId), Turn, turnId, 0, "")];
    assert Plain(start) && Plain(messages);
    PlainAnswers(start);
    PlainAnswers(messages);
    hide AnswersFirst, NonBlank, Neutral;
    AnswersFirstConcat(history, start);
    AnswersFirstConcat(history + start, messages);
    PlainKeyed(history, start);
    PlainKeyed(history + start, messages);
  }

  lemma TurnIsFresh(base: Ledger, cursor: Cursor, turnId: string)
    requires FreshFor(base, cursor)
    ensures FreshFor(Ledger(OpenBeside(base, turnId), base.closed), cursor)
  {
  }

  /** A run of a user's turn begins with the turn's operation open beside it. */
  lemma StartBegins(history: seq<Event>, messages: seq<Event>, turnId: string, mode: string, workflow: string, stream: bool,
                    stepIndex: int)
    requires WellMade(history) && NonBlank(turnId) && Neutral(messages)
    requires FreshFor(Replay(EMPTY, history), Start(turnId, mode, workflow, stream, stepIndex).cursor)
    ensures Begins(TurnLog(history, turnId, messages), Start(turnId, mode, workflow, stream, stepIndex),
                   OpenBeside(Replay(EMPTY, history), turnId))
  {
    hide *;
    var first := Start(turnId, mode, workflow, stream, stepIndex);
    TurnWellMade(history, turnId, messages);
    TurnLedger(history, turnId, messages);
    TurnIsFresh(Replay(EMPTY, history), first.cursor, turnId);
    StartWellMade(turnId, mode, workflow, stream, stepIndex);
    StartTracks(Replay(EMPTY, TurnLog(history, turnId, messages)), turnId, mode, workflow, stream, stepIndex);
    BeginsWith(TurnLog(history, turnId, messages), first, OpenBeside(Replay(EMPTY, history), turnId));
  }

  /** The same for a command that runs one tool. */
  lemma CommandBegins(history: seq<Event>, messages: seq<Event>, turnId: string, mode: string, workflow: string,
                      action: ToolAction, parent: string, stepIndex: int)
    requires WellMade(history) && NonBlank(turnId) && Neutral(messages)
    requires FreshFor(Replay(EMPTY, history), CommandTool(turnId, mode, workflow, action, parent, stepIndex).cursor)
    ensures Begins(TurnLog(history, turnId, messages), CommandTool(turnId, mode, workflow, action, parent, stepIndex),
                   OpenBeside(Replay(EMPTY, history), turnId))
  {
    hide *;
    var first := CommandTool(turnId, mode, workflow, action, parent, stepIndex);
    TurnWellMade(history, turnId, messages);
    TurnLedger(history, turnId, messages);
    TurnIsFresh(Replay(EMPTY, history), first.cursor, turnId);
    CommandWellMade(turnId, mode, workflow, action, parent, stepIndex);
    CommandTracks(Replay(EMPTY, TurnLog(history, turnId, messages)), turnId, mode, workflow, action, parent, stepIndex);
    BeginsWith(TurnLog(history, turnId, messages), first, OpenBeside(Replay(EMPTY, history), turnId));
  }

  /** Resuming starts the turn again under the same name, and closes the interaction. */
  lemma ResumeBegins(history: seq<Event>, messages: seq<Event>, pending: Pending, batch: PrepareBatch, turnId: string,
                     stream: bool, stepIndex: int)
    requires WellMade(history) && NonBlank(turnId) && Neutral(messages) && NonBlank(pending.interaction)
    requires batch.actions != []
    requires var cursor := ResumePreparation(pending, batch, turnId, stream, stepIndex).cursor;
             FreshFor(Replay(EMPTY, history), cursor) && NotAhead(cursor, batch.message) && Steady(cursor)
    ensures Begins(TurnLog(history, turnId, messages), ResumePreparation(pending, batch, turnId, stream, stepIndex),
                   OpenBeside(Replay(EMPTY, history), turnId) - {PendingOp(pending.interaction)})
  {
    hide *;
    var first := ResumePreparation(pending, batch, turnId, stream, stepIndex);
    TurnWellMade(history, turnId, messages);
    TurnLedger(history, turnId, messages);
    TurnIsFresh(Replay(EMPTY, history), first.cursor, turnId);
    ResumeWellMade(pending, batch, turnId, stream, stepIndex);
    ResumeTracks(Replay(EMPTY, TurnLog(history, turnId, messages)), pending, batch, turnId, stream, stepIndex);
    BeginsWith(TurnLog(history, turnId, messages), first,
               OpenBeside(Replay(EMPTY, history), turnId) - {PendingOp(pending.interaction)});
  }

  lemma StartWellMade(turnId: string, mode: string, workflow: string, stream: bool, stepIndex: int)
    ensures var first := Start(turnId, mode, workflow, stream, stepIndex);
            Steady(first.cursor) && first.effect.Some? && WellMade(first.events)
  {
    PlainAnswers(Start(turnId, mode, workflow, stream, stepIndex).events);
  }

  lemma CommandWellMade(turnId: string, mode: string, workflow: string, action: ToolAction, parent: string, stepIndex: int)
    ensures var first := CommandTool(turnId, mode, workflow, action, parent, stepIndex);
            Steady(first.cursor) && first.effect.Some? && WellMade(first.events)
  {
    PlainAnswers(CommandTool(turnId, mode, workflow, action, parent, stepIndex).events);
  }

  lemma BeginsWith(earlier: seq<Event>, first: KernelStep, outside: set<OperationId>)
    requires Shaped(first) && first.effect.Some? && Steady(first.cursor)
    requires Tracks(Replay(Replay(EMPTY, earlier), first.events), first, outside)
    requires WellMade(earlier) && WellMade(first.events)
    ensures Begins(earlier, first, outside)
  {
  }

  lemma ResumeWellMade(pending: Pending, batch: PrepareBatch, turnId: string, stream: bool, stepIndex: int)
    requires NonBlank(pending.interaction)
    ensures WellMade(ResumePreparation(pending, batch, turnId, stream, stepIndex).events)
    ensures ResumePreparation(pending, batch, turnId, stream, stepIndex).effect.Some?
  {
  }

  /** After a crash in a run of the turn, the reducer finds the turn started, unless an
      operation of its name was closed before the run. */
  lemma CrashMarksTurn(history: seq<Event>, messages: seq<Event>, turnId: string, answered: set<OperationId>,
                       steps: seq<KernelStep>, ticks: seq<Tick>, limit: Option<int>, stored: seq<Log.StoredEvent>)
    requires var earlier := TurnLog(history, turnId, messages);
             && IsRun(steps, ticks, limit)
             && Begins(earlier, steps[0], OpenBeside(Replay(EMPTY, history), turnId) - answered)
             && Admitted(NOBODY, earlier + Committed(steps)).Some?
             && AllStored(stored, earlier + Committed(steps))
    requires TurnOp(turnId) !in answered
    ensures Render(TurnOp(turnId)) in Log.StartedKeys(Log.Folded(Log.EMPTY_LOG, stored))
       <==> TurnOp(turnId) !in Replay(EMPTY, history).closed
  {
    var outside := OpenBeside(Replay(EMPTY, history), turnId) - answered;
    ReplayApart(EMPTY, history);
    hide *;
    CrashRestore(TurnLog(history, turnId, messages), steps, ticks, limit, outside, stored);
    CommittedOpen(TurnLog(history, turnId, messages), steps, ticks, limit, outside);
    TurnBeside(Replay(EMPTY, history), turnId, answered, steps[|ticks|]);
    TextIn(TurnOp(turnId), outside + OpenAt(steps[|ticks|]));
  }

  lemma TurnBeside(base: Ledger, turnId: string, answered: set<OperationId>, step: KernelStep)
    requires base.open !! base.closed && TurnOp(turnId) !in answered && Shaped(step)
    ensures TurnOp(turnId) in OpenBeside(base, turnId) - answered + OpenAt(step) <==> TurnOp(turnId) !in base.closed
  {
  }

  lemma TextIn(id: OperationId, ids: set<OperationId>)
    ensures Render(id) in Texts(ids) <==> id in ids
  {
    if Render(id) in Texts(ids) {
      var other :| other in ids && Render(other) == Render(id);
      RenderInjective(id, other);
    }
  }

  lemma TurnWasFinished(history: seq<Event>, turnId: string)
    requires history != [] && history[|history| - 1] == OperationFinished(TurnOp(turnId), Turn)
    ensures TurnOp(turnId) in Replay(EMPTY, history).closed
  {
    var n := |history| - 1;
    assert history[..n] + [history[n]] == history;
    CloseOne(EMPTY, history[..n], history[n]);
    hide Replay;
  }

  /** A suspension finishes the turn, and resuming starts it again under the same name, which
      the reducer ignores: a crash in a resumed run does not mark the turn. */
  lemma ResumedTurnUnmarked(history: seq<Event>, messages: seq<Event>, turnId: string, answered: set<OperationId>,
                            steps: seq<KernelStep>, ticks: seq<Tick>, limit: Option<int>, stored: seq<Log.StoredEvent>)
    requires history != [] && history[|history| - 1] == OperationFinished(TurnOp(turnId), Turn)
    requires var earlier := TurnLog(history, turnId, messages);
             && IsRun(steps, ticks, limit)
             && Begins(earlier, steps[0], OpenBeside(Replay(EMPTY, history), turnId) - answered)
             && Admitted(NOBODY, earlier + Committed(steps)).Some?
             && AllStored(stored, earlier + Committed(steps))
    requires TurnOp(turnId) !in answered
    ensures Render(TurnOp(turnId)) !in Log.StartedKeys(Log.Folded(Log.EMPTY_LOG, stored))
  {
    hide *;
    TurnWasFinished(history, turnId);
    CrashMarksTurn(history, messages, turnId, answered, steps, ticks, limit, stored);
  }

  /** A stored form of an event; one exists for every log. */
  function StoredForm(event: Event): (stored: Log.StoredEvent)
    ensures Stores(stored, event)
  {
    var operation := if event.Operational() then Render(event.id) else "";
    var eventType := match event
      case OperationStarted(_, _, _, _, _) => Log.EventType.OperationStarted
      case OperationFinished(_, _) => Log.EventType.OperationFinished
      case OperationInterrupted(_, _, _) => Log.EventType.OperationInterrupted
      case _ => Log.EventType.OtherType("");
    Log.StoredEvent(eventType, Log.Payload(operation, "", "", "", "", "", "", "", "", false, map[], map[]), "")
  }

  function StoredForms(events: seq<Event>): (stored: seq<Log.StoredEvent>)
    ensures AllStored(stored, events)
  {
    seq(|events|, i requires 0 <= i < |events| => StoredForm(events[i]))
  }

  // The instance: turn "t" asks "i" in its first step and is suspended; it is resumed in its
  // second step, and the program crashes when that has been committed.

  function Suspended(): seq<Event> {
    [OperationStarted(TurnOp("t"), Turn, "t", 0, ""),
     InteractionAsked("i"),
     OperationStarted(PendingOp("i"), PendingInteraction, "t", 1, ""),
     OperationFinished(TurnOp("t"), Turn)]
  }

  function ResumedStep(): KernelStep {
    var question := ToolAction("ask_user", map[], "call", "");
    var resume := Resume(UserInput, question, Resolution(false, "yes", None, "", ""), "");
    ResumePreparation(Pending("i", UserInput, "ask_user"),
                      PrepareBatch(MessageId("t", 1, 1), [question], "build", "", false, 0, [], [], ToContext, Some(resume)),
                      "t", false, 2)
  }

  lemma SuspendedLedger()
    ensures Replay(EMPTY, Suspended()) == Ledger({PendingOp("i")}, {TurnOp("t")})
  {
    var front := [Suspended()[0], Suspended()[1], Suspended()[2]];
    assert Suspended() == front + [Suspended()[3]];
    ReplayThree(EMPTY, Suspended()[0], Suspended()[1], Suspended()[2]);
    ReplayConcat(EMPTY, front, [Suspended()[3]]);
    ReplayOne(Replay(EMPTY, front), Suspended()[3]);
    hide Replay;
  }

  lemma SuspendedWellMade()
    ensures NonBlank("t") && NonBlank("i") && WellMade(Suspended())
  {
    assert forall e | e in Suspended() :: e.Operational() ==> Keyed(e.id);
  }

  lemma ResumedFresh()
    ensures FreshFor(Ledger({PendingOp("i")}, {TurnOp("t")}), ResumedStep().cursor)
  {
  }

  lemma ResumedBegins()
    ensures var beside := OpenBeside(Replay(EMPTY, Suspended()), "t");
            beside - {PendingOp("i")} == {} && Begins(TurnLog(Suspended(), "t", []), ResumedStep(), {})
  {
    SuspendedLedger();
    SuspendedWellMade();
    ResumedFresh();
    var batch, pending := ResumedStep().effect.value.batch, Pending("i", UserInput, "ask_user");
    hide Begins, WellMade, NonBlank, FreshFor, TurnLog;
    ResumeBegins(Suspended(), [], pending, batch, "t", false, 2);
  }

  ghost predicate Unasking(events: seq<Event>) {
    forall e | e in events :: !e.InteractionAsked? && !e.PendingResolution?
  }

  lemma Unasked(asked: Asked, events: seq<Event>)
    requires Unasking(events)
    ensures Admitted(asked, events) == Some(asked)
  {
    if events != [] {
      Unasked(asked, events[..|events| - 1]);
    }
  }

  /** A question and its answer are taken. */
  lemma AskedAndAnswered(front: seq<Event>, i: string, middle: seq<Event>, tail: seq<Event>)
    requires Unasking(front) && Unasking(middle) && Unasking(tail) && i != ""
    ensures Admitted(NOBODY, front + [InteractionAsked(i)] + middle + [PendingResolution(i)] + tail).Some?
  {
    hide Unasking, Admitted;
    var asks, answers := Asked({i}, Some(i)), Asked({i}, None);
    assert NOBODY.seen + {i} == {i};
    Unasked(NOBODY, front);
    Unasked(asks, middle);
    Unasked(answers, tail);
    OneAdmitted(NOBODY, InteractionAsked(i));
    OneAdmitted(asks, PendingResolution(i));
    AdmittedConcat(NOBODY, front, [InteractionAsked(i)]);
    AdmittedConcat(NOBODY, front + [InteractionAsked(i)], middle);
    AdmittedConcat(NOBODY, front + [InteractionAsked(i)] + middle, [PendingResolution(i)]);
    AdmittedConcat(NOBODY, front + [InteractionAsked(i)] + middle + [PendingResolution(i)], tail);
  }

  lemma OneAdmitted(asked: Asked, event: Event)
    ensures Admitted(asked, [event]) == match Taken(asked, event) case Ok(after) => Some(after) case Err(_) => None
  {
    assert [event][..0] == [];
  }

  lemma ResumedAdmitted()
    ensures Admitted(NOBODY, TurnLog(Suspended(), "t", []) + ResumedStep().events).Some?
  {
    var all := TurnLog(Suspended(), "t", []) + ResumedStep().events;
    assert all == all[..1] + [InteractionAsked("i")] + all[2..7] + [PendingResolution("i")] + all[8..];
    hide Admitted;
    AskedAndAnswered(all[..1], "i", all[2..7], all[8..]);
  }

  /** The reducer then finds the resumed step started, but not its turn. */
  lemma ResumedInstance() returns (stored: seq<Log.StoredEvent>)
    ensures AllStored(stored, TurnLog(Suspended(), "t", []) + ResumedStep().events)
    ensures var started := Log.StartedKeys(Log.Folded(Log.EMPTY_LOG, stored));
            Render(StepOp("t", 2)) in started && Render(TurnOp("t")) !in started
  {
    hide *;
    var earlier, first := TurnLog(Suspended(), "t", []), ResumedStep();
    stored := StoredForms(earlier + first.events);
    ResumedBegins();
    ResumedAdmitted();
    CommittedNext([first]);
    StepIsOpen();
    NoTicks(first);
    ResumedTurnUnmarked(Suspended(), [], "t", {PendingOp("i")}, [first], [], None, stored);
    CrashRestore(earlier, [first], [], None, {}, stored);
    TextIn(StepOp("t", 2), {} + OpenAt(first));
  }

  lemma NoTicks(first: KernelStep)
    ensures IsRun([first], [], None)
  {
  }

  lemma StepIsOpen()
    ensures StepOp("t", 2) in OpenAt(ResumedStep())
    ensures |Suspended()| == 4 && Suspended()[3] == OperationFinished(TurnOp("t"), Turn)
  {
  }
}
