/** The values that pass between the kernel, the loop and the two services: tool actions,
    observations, journal events, effects and effect results. */
module AgentEffects {
  import opened Outcomes
  import opened OperationIds

  /** A tool call with its JSON argument object, which the model keeps abstract: a frozen
      action stores the object in canonical form, so both forms are this one value. */
  datatype ToolAction = ToolAction(name: string, arguments: map<string, string>, callId: string, rawArguments: string)

  /** The parts of an observation's data that the core reads. */
  datatype ObservationData =
    | Opaque(value: int)
    | Fields(errorKind: string, modeChanged: bool, selectedMode: string, others: map<string, string>)

  datatype Observation =
    Observation(toolName: string, success: bool, error: Option<string>, data: ObservationData)
  {
    function ErrorKind(): string {
      if data.Fields? then data.errorKind else ""
    }
  }

  datatype Continuation = ToContext | ToComplete

  datatype Invocation = Invocation(
    id: OperationId,
    providerCallId: string,
    sourceIndex: nat,
    original: ToolAction,
    effective: ToolAction,
    category: string,
    readOnly: bool,
    concurrencySafe: bool,
    presentation: map<string, string>,
    sourceType: string,
    sourceId: string,
    replaySafe: bool,
    mode: string,
    workflow: string)

  datatype Immediate = Immediate(
    sourceIndex: nat,
    original: ToolAction,
    effective: ToolAction,
    observation: Observation)

  datatype InteractionKind = Permission | UserInput

  /** The answer to a pending interaction. */
  datatype Resolution = Resolution(
    approved: bool,
    answer: string,
    selectedIndex: Option<int>,
    selectedMode: string,
    selectedOptionText: string)

  datatype Resume = Resume(kind: InteractionKind, effective: ToolAction, resolution: Resolution, category: string)

  datatype PrepareBatch = PrepareBatch(
    message: MessageId,
    actions: seq<ToolAction>,
    mode: string,
    workflow: string,
    truncated: bool,
    startIndex: nat,
    preparedPrefix: seq<Invocation>,
    immediatePrefix: seq<Immediate>,
    continuation: Continuation,
    resume: Option<Resume>)

  datatype Pending = Pending(interaction: string, kind: InteractionKind, toolName: string)

  datatype Transition = Transition(
    reason: TransitionReason,
    message: string,
    pending: Option<Pending>,
    nextMode: string,
    turnsUsed: int)

  datatype OperationKind =
    | Turn | AgentStep | ContextAssembly | ContextSnapshot | ProviderRequest | ToolPreparation | ToolRun
    | ToolCall | PendingInteraction | SavePoint | WorkflowPatch

  /** A journal event before it is stored. `StateEvent` stands for every event that only the
      session reducer reads, named by its type. */
  datatype Event =
    | StepStarted(turn: string, step: nat)
    | OperationStarted(id: OperationId, kind: OperationKind, turn: string, step: nat, call: string)
    | OperationFinished(id: OperationId, kind: OperationKind)
    | OperationInterrupted(id: OperationId, kind: OperationKind, reason: string)
    | AssistantMessage(message: MessageId, parent: string, content: string, actions: seq<ToolAction>)
    | ToolCallPlanned(call: string, name: string)
    | ToolResult(call: string, name: string, observation: Observation)
    | LoopTransition(transition: Transition)
    | InteractionAsked(interaction: string)
    | PendingResolution(interaction: string)
    | StateEvent(eventType: string)
  {
    predicate Operational() {
      OperationStarted? || OperationFinished? || OperationInterrupted?
    }

    predicate Closing() {
      OperationFinished? || OperationInterrupted?
    }
  }

  datatype Reply = Reply(content: string, actions: seq<ToolAction>, finishReason: string)

  datatype Effect =
    | AssembleContext(id: EffectId, mode: string, workflow: string, forceCompact: bool)
    | RequestProvider(id: EffectId, stream: bool, deferred: seq<Event>)
    | PrepareTools(id: EffectId, batch: PrepareBatch)
    | ExecuteTools(id: EffectId, invocations: seq<Invocation>, immediates: seq<Immediate>)

  datatype FailureKind = Cancelled | SafetyLimit | ContextLimit | ProviderError | GuardStopped

  /** `tokens` are the commit tokens of materialised tool results. */
  datatype EffectResult =
    | ContextAssembled(effect: EffectId, events: seq<Event>, deferred: seq<Event>)
    | ProviderCompleted(effect: EffectId, reply: Reply, events: seq<Event>, parent: string)
    | ToolsPrepared(effect: EffectId, invocations: seq<Invocation>, immediates: seq<Immediate>,
                    events: seq<Event>, tokens: seq<int>)
    | ToolsCompleted(effect: EffectId, observations: seq<Observation>, events: seq<Event>, tokens: seq<int>)
    | InteractionSuspended(effect: EffectId, suspendedOn: Pending, events: seq<Event>, tokens: seq<int>)
    | EffectFailed(effect: EffectId, kind: FailureKind, message: string, events: seq<Event>, tokens: seq<int>,
                   turnsUsed: int)
  {
    function CommitTokens(): seq<int> {
      if ContextAssembled? || ProviderCompleted? then [] else tokens
    }
  }
}

/** Which operations are open after a run of events: started, and not closed since. */
module OperationLedger {
  import opened OperationIds
  import opened AgentEffects

  datatype Ledger = Ledger(open: set<OperationId>, closed: set<OperationId>)
  {
    ghost predicate Knows(id: OperationId) {
      id in open || id in closed
    }
  }

  const EMPTY := Ledger({}, {})

  /** A start of an operation that was closed before is ignored. */
  function Record(ledger: Ledger, event: Event): Ledger {
    match event
    case OperationStarted(id, _, _, _, _) =>
      if id in ledger.closed then ledger else ledger.(open := ledger.open + {id})
    case OperationFinished(id, _) => Ledger(ledger.open - {id}, ledger.closed + {id})
    case OperationInterrupted(id, _, _) => Ledger(ledger.open - {id}, ledger.closed + {id})
    case _ => ledger
  }

  function Replay(ledger: Ledger, events: seq<Event>): Ledger
    decreases |events|
  {
    if events == [] then ledger else Replay(Record(ledger, events[0]), events[1..])
  }

  lemma {:induction false} ReplayConcat(ledger: Ledger, first: seq<Event>, second: seq<Event>)
    ensures Replay(ledger, first + second) == Replay(Replay(ledger, first), second)
    decreases |first|
  {
    if first == [] {
      assert first + second == second;
    } else {
      assert (first + second)[1..] == first[1..] + second;
      ReplayConcat(Record(ledger, first[0]), first[1..], second);
    }
  }

  lemma ReplayOne(ledger: Ledger, event: Event)
    ensures Replay(ledger, [event]) == Record(ledger, event)
  {
    assert [event][1..] == [];
  }

  lemma ReplayTwo(ledger: Ledger, first: Event, second: Event)
    ensures Replay(ledger, [first, second]) == Record(Record(ledger, first), second)
  {
    assert [first, second] == [first] + [second];
    ReplayConcat(ledger, [first], [second]);
    ReplayOne(ledger, first);
    ReplayOne(Record(ledger, first), second);
  }

  lemma ReplayThree(ledger: Ledger, first: Event, second: Event, third: Event)
    ensures Replay(ledger, [first, second, third]) == Record(Record(Record(ledger, first), second), third)
  {
    assert [first, second, third] == [first, second] + [third];
    ReplayConcat(ledger, [first, second], [third]);
    ReplayTwo(ledger, first, second);
    ReplayOne(Record(Record(ledger, first), second), third);
  }

  /** Nothing is open and closed at once. */
  lemma {:induction false} ReplayApart(ledger: Ledger, events: seq<Event>)
    requires ledger.open !! ledger.closed
    ensures Replay(ledger, events).open !! Replay(ledger, events).closed
    decreases |events|
  {
    if events != [] {
      ReplayApart(Record(ledger, events[0]), events[1..]);
    }
  }

  ghost predicate Neutral(events: seq<Event>) {
    forall e | e in events :: !e.Operational()
  }

  lemma {:induction false} ReplayNeutral(ledger: Ledger, events: seq<Event>)
    requires Neutral(events)
    ensures Replay(ledger, events) == ledger
  {
    if events != [] {
      assert events[0] in events;
      ReplayNeutral(ledger, events[1..]);
    }
  }
}

/** Which interactions a run of events asks about, as the session reducer sees it, and what
    that says about the operations of interactions in the ledger. */
module InteractionLedger {
  import opened Outcomes
  import opened OperationIds
  import opened AgentEffects
  import opened OperationLedger
  import opened Interactions

  function Taken(asked: Asked, event: Event): Result<Asked> {
    match event
    case InteractionAsked(interaction) => Ask(asked, interaction)
    case PendingResolution(interaction) => Answer(asked, interaction)
    case _ => Ok(asked)
  }

  /** The state after the events, unless the reducer rejects one of them. A commit tries all
      of its events out first, so a rejected event never reaches the log. */
  function Admitted(asked: Asked, events: seq<Event>): Option<Asked>
    decreases |events|
  {
    if events == [] then Some(asked)
    else
      match Admitted(asked, events[..|events| - 1])
      case None => None
      case Some(before) =>
        match Taken(before, events[|events| - 1])
        case Ok(after) => Some(after)
        case Err(_) => None
  }

  lemma {:induction false} AdmittedConcat(asked: Asked, first: seq<Event>, second: seq<Event>)
    ensures Admitted(asked, first + second)
         == match Admitted(asked, first) case None => None case Some(middle) => Admitted(middle, second)
    decreases |second|
  {
    if second == [] {
      assert first + second == first;
    } else {
      var n := |second| - 1;
      AdmittedConcat(asked, first, second[..n]);
      assert (first + second)[..|first| + n] == first + second[..n];
    }
  }

  /** Ids that were asked about are not forgotten. */
  lemma {:induction false} SeenGrows(asked: Asked, events: seq<Event>)
    requires Admitted(asked, events).Some?
    ensures asked.seen <= Admitted(asked, events).value.seen
    decreases |events|
  {
    if events != [] {
      SeenGrows(asked, events[..|events| - 1]);
    }
  }

  /** An interaction whose operation is closed was asked about before. */
  ghost predicate ClosedWereAsked(ledger: Ledger, asked: Asked) {
    && (forall id | id in ledger.closed && id.PendingOp? :: id.interaction in asked.seen)
    && (asked.waiting.Some? ==> asked.waiting.value in asked.seen)
  }

  /** The operation of an interaction is closed only by the event right after its answer. */
  ghost predicate AnswersFirst(events: seq<Event>) {
    forall i | 0 <= i < |events| && ClosesPending(events[i]) ::
      i > 0 && events[i].id.interaction != "" && events[i - 1] == PendingResolution(events[i].id.interaction)
  }

  predicate ClosesPending(event: Event) {
    event.Closing() && event.id.PendingOp?
  }

  lemma AnswersFirstConcat(first: seq<Event>, second: seq<Event>)
    requires AnswersFirst(first) && AnswersFirst(second)
    ensures AnswersFirst(first + second)
  {
    var both := first + second;
    forall i | 0 <= i < |both| && ClosesPending(both[i])
      ensures i > 0 && both[i].id.interaction != "" && both[i - 1] == PendingResolution(both[i].id.interaction)
    {
      assert i < |first| ==> both[i] == first[i];
      assert i >= |first| ==> both[i] == second[i - |first|];
    }
  }

  lemma AnswersFirstBefore(events: seq<Event>, n: nat)
    requires AnswersFirst(events) && n <= |events|
    ensures AnswersFirst(events[..n])
  {
  }

  lemma AnsweredNext(ledger: Ledger, asked: Asked, event: Event)
    requires ClosedWereAsked(ledger, asked) && Taken(asked, event).Ok?
    requires ClosesPending(event) ==> event.id.interaction in asked.seen
    ensures ClosedWereAsked(Record(ledger, event), Taken(asked, event).value)
  {
  }

  /** The reducer takes an answer only of an interaction that it was asked about. */
  lemma AnswerWasAsked(asked: Asked, events: seq<Event>, interaction: string, before: Ledger)
    requires events != [] && events[|events| - 1] == PendingResolution(interaction) && interaction != ""
    requires Admitted(asked, events).Some?
    requires Admitted(asked, events[..|events| - 1]).Some? ==>
               ClosedWereAsked(before, Admitted(asked, events[..|events| - 1]).value)
    ensures interaction in Admitted(asked, events).value.seen
  {
  }

  lemma {:induction false} AnsweredKept(ledger: Ledger, asked: Asked, events: seq<Event>)
    requires ClosedWereAsked(ledger, asked) && AnswersFirst(events) && Admitted(asked, events).Some?
    ensures ClosedWereAsked(Replay(ledger, events), Admitted(asked, events).value)
    decreases |events|
  {
    if events != [] {
      var n := |events| - 1;
      var front, last := events[..n], events[n];
      AnswersFirstBefore(events, n);
      AnsweredKept(ledger, asked, front);
      assert front + [last] == events;
      ReplayConcat(ledger, front, [last]);
      ReplayOne(Replay(ledger, front), last);
      if ClosesPending(last) {
        AnswersFirstBefore(events, n - 1);
        assert front[..n - 1] == events[..n - 1];
        AnsweredKept(ledger, asked, front[..n - 1]);
        AnswerWasAsked(asked, front, last.id.interaction, Replay(ledger, front[..n - 1]));
      }
      hide ClosedWereAsked, Replay, AnswersFirst;
      AnsweredNext(Replay(ledger, front), Admitted(asked, front).value, last);
    }
  }

  /** An interaction that was answered does not wait any more, and is not asked about again. */
  lemma {:induction false} AnsweredStays(asked: Asked, events: seq<Event>, interaction: string, i: nat)
    requires i < |events| && events[i] == PendingResolution(interaction) && interaction != ""
    requires ClosedWereAsked(EMPTY, asked) && Admitted(asked, events).Some?
    ensures var after := Admitted(asked, events).value;
            interaction in after.seen && after.waiting != Some(interaction)
    decreases |events|
  {
    var n := |events| - 1;
    WaitingWasAsked(asked, events[..n]);
    if i < n {
      AnsweredStays(asked, events[..n], interaction, i);
    }
  }

  lemma {:induction false} WaitingWasAsked(asked: Asked, events: seq<Event>)
    requires ClosedWereAsked(EMPTY, asked) && Admitted(asked, events).Some?
    ensures var after := Admitted(asked, events).value;
            after.waiting.Some? ==> after.waiting.value in after.seen
    decreases |events|
  {
    if events != [] {
      WaitingWasAsked(asked, events[..|events| - 1]);
    }
  }

  /** Along every log that the reducer takes, an interaction is answered at most once and is not
      asked about again after that. */
  lemma AnsweredOnce(events: seq<Event>, i: nat, j: nat, interaction: string)
    requires Admitted(NOBODY, events).Some? && i < j < |events| && interaction != ""
    requires events[i] == PendingResolution(interaction)
    ensures events[j] != PendingResolution(interaction) && events[j] != InteractionAsked(interaction)
  {
    AdmittedPrefix(NOBODY, events, j + 1);
    assert events[..j + 1][..j] == events[..j];
    AdmittedPrefix(NOBODY, events, j);
    AnsweredStays(NOBODY, events[..j], interaction, i);
  }

  /** Nobody asked or answered between the two places. */
  ghost predicate QuietBetween(events: seq<Event>, k: nat, n: nat)
    requires n <= |events|
  {
    forall j | k < j < n :: !events[j].InteractionAsked? && !events[j].PendingResolution?
  }

  /** What waits is the last question, and nothing was answered since. */
  lemma {:induction false} WaitingSince(events: seq<Event>) returns (k: nat)
    requires Admitted(NOBODY, events).Some? && Admitted(NOBODY, events).value.waiting.Some?
    ensures k < |events| && events[k] == InteractionAsked(Admitted(NOBODY, events).value.waiting.value)
    ensures QuietBetween(events, k, |events|)
    decreases |events|
  {
    var n := |events| - 1;
    if events[n].InteractionAsked? {
      k := n;
    } else {
      k := WaitingSince(events[..n]);
      assert events[k] == events[..n][k];
      assert forall j | k < j < n :: events[j] == events[..n][j];
    }
  }

  /** Every answer that the reducer takes is one to the last question, which nobody has answered
      before; if it names an interaction, it names that of the question. */
  lemma AnswersLatest(events: seq<Event>, i: nat) returns (k: nat)
    requires Admitted(NOBODY, events).Some? && i < |events| && events[i].PendingResolution?
    ensures k < i && events[k].InteractionAsked? && QuietBetween(events, k, i)
    ensures events[i].interaction in ["", events[k].interaction]
  {
    AdmittedPrefix(NOBODY, events, i + 1);
    assert events[..i + 1][..i] == events[..i];
    AdmittedPrefix(NOBODY, events, i);
    k := WaitingSince(events[..i]);
    assert forall j | k < j < i :: events[j] == events[..i][j];
  }

  lemma {:induction false} AdmittedPrefix(asked: Asked, events: seq<Event>, n: nat)
    requires Admitted(asked, events).Some? && n <= |events|
    ensures Admitted(asked, events[..n]).Some?
    decreases |events|
  {
    if n < |events| {
      AdmittedPrefix(asked, events[..|events| - 1], n);
      assert events[..|events| - 1][..n] == events[..n];
    } else {
      assert events[..n] == events;
    }
  }
}
