# Verified model of the agent core, the composition compiler and their helpers

A Dafny 4.11 model of the parts of EmbedAgent whose correctness spans many steps or many
inputs, with proofs about them. `dafny verify dfyconfig.toml` checks everything.

**The agent turn machine.** `AgentKernel` models the immutable cursors and the steps made of
them, `AgentServices` what the context, provider and tool services return, `AgentLoop` and
`AgentDrive` the loop that commits a step, executes its effect and feeds the result back.
`AgentRun` follows the operations that a run opens and closes through a ledger, and
`AgentInvariant` carries that along whole runs, with what the session reducer says about pending
interactions (`Interactions`). `AgentProgress` has the order of effects, `AgentOutcome` the
reasons for which a run ends. `AgentFlow` says what a run carries from turn to turn,
`AgentTranscript` what it says in the log, `AgentEvents` what the events of the kernel name,
`AgentReplies` what a reply leads to. `OperationLog` is the reducer that folds stored events on
restore, and `AgentRestore` compares the two. `OperationIds` proves that the texts of ids determine
them, which lets the machine be modelled on ids and the reducer on texts.

**Tool batches.** `ToolPreparation` prepares the actions of a batch, `ToolCheckpoint` stores and
rebuilds a suspended batch, `ToolConversation` compares suspending with answering inline.
`ToolExecution` runs prepared invocations in groups, `ToolResults` puts the results in order, and
`ToolOutcomes` tells what became of each. `ToolAnswers` follows answers and the catalog,
`ToolClearance` says what every prepared invocation has gone through, `AgentBatches` joins
preparation and execution to runs, and `AgentResume` joins suspensions to the runs that resume
them.

**Registration scopes.** `ScopeMachine` has one step for each region that runs under a lock, and
`ScopeSafety`, `ScopeChildren` and `ScopeCalls` prove what every interleaving of them keeps.
`ScopeTree` is the sequential tree of scopes, `ScopeOrder` and `ScopeSequence` its shape and the
order of disposal, `ScopeActs` what any number of acts come to, transactions among them.

**Composition.** `DepthFirst` is the search that three parts of the compiler share,
`ComponentSelection` the catalog and the selection, `RuntimeClosure` the runtime capabilities,
`BundlePlan` and `BundleCompile` the compiled plan, `BundleLoad` the loader that checks it again.

**Journal, messages, command line.** `SessionJournal`, `ParentChain` and `CommandLine` stand for
themselves. `Text`, `TextSort`, `IndexSort`, `Sequences` and `Runs` hold what several of them share.

What the code asks of the outside world is a parameter: the results of services and tools, stop
flags, the progress guard, permission rules, hooks, write-path checks, the tool catalog, ids,
clocks and a log that cannot be written. Where a property of the code does not hold for all
inputs, the result says exactly when it does:

- Answering after a suspension differs from answering inline when the user approves a
  permission prompt for `ask_user` or `propose_mode_switch`: the resumed action is looked up in
  the tool catalog and the user is never asked (`ToolConversation.InlineUnlessAsked`).
- A crash in a resumed run leaves the turn unmarked: the suspension has finished the turn's
  operation, and the reducer ignores a second start (`AgentRestore.CrashMarksTurn`,
  `AgentRestore.ResumedInstance`).
- A session with a pending interaction is not restored past it once the interaction is more than
  300 seconds old, even when it was answered long ago; under the default policy, which trusts no
  event, all later events are lost to the restore (`SessionJournal.RestoreExpires`).
- A failed transaction leaves registrations of its own behind when an earlier one was disposed of
  meanwhile, because its checkpoint is a length (`ScopeActs.RollbackExact`).
- A session whose id is not in the log's normal form falls out of step with its log at its first
  commit, because the reducer then rejects the stored event (`SessionJournal.CapitalSession`).
- A compiled plan is refused by the loader when its isolated application requires nothing or has
  no entry, or when two distributions differ only in case or separators
  (`BundleLoad.CompiledIsLoadable`).
- An invocation without a category, or an observation named after another tool, changes in a
  checkpoint; preparation produces neither (`ToolCheckpoint`, `ToolPreparation.PrepareServes`).

## Model

| member | source | states |
|---|---|---|
| AgentInvariant.OpenOperations | packages/embedagent-core/src/embedagent_core/agent_kernel.py:106-549 | main result: after every committed step of every run that the two services feed, the operations that are started and not closed are exactly those outside the run, the step, its effect and, while tools run, all its invocations; at an outcome nothing of the run but the pending interaction. That an interaction is new follows from the reducer having taken the events |
| AgentInvariant.CommittedTick | packages/embedagent-core/src/embedagent_core/agent_loop.py:148-244 | one committed turn of the loop keeps that invariant in every case: cancelled before or after the effect, stopped by the guard or the safety limit, failed, retried, suspended, finished |
| AgentRun.InteractionStep | packages/embedagent-core/src/embedagent_core/agent_kernel.py:460-484 | a suspension that the reducer takes leaves its interaction open and nothing else of the run |
| InteractionLedger.AnsweredKept | packages/embedagent-core/src/embedagent_core/session_reducer.py:353-405 | along every log that the reducer takes, the operation of an interaction is closed only if the reducer has taken the question before |
| InteractionLedger.AnswersLatest | packages/embedagent-core/src/embedagent_core/session_reducer.py:353-402 | along every log that the reducer takes, each answer follows a question with no other question or answer in between, and names that question or none |
| InteractionLedger.AnsweredOnce | packages/embedagent-core/src/embedagent_core/session_reducer.py:353-402 | along every such log an interaction is answered at most once and never asked about again after that |
| AgentRun.FailureStep | packages/embedagent-core/src/embedagent_core/agent_kernel.py:486-549 | a final failure closes exactly what the service left open, whatever part of the batch the service had closed |
| AgentRun.RetryStep | packages/embedagent-core/src/embedagent_core/agent_kernel.py:486-525 | the one compact retry closes the request and opens the compacted context, and nothing else changes |
| AgentRun.ExecutedStep | packages/embedagent-core/src/embedagent_core/agent_kernel.py:393-458 | after an executed batch every invocation is closed, then the effect and the step |
| AgentRun.PreparedStep | packages/embedagent-core/src/embedagent_core/agent_kernel.py:346-391 | a prepared batch opens exactly its invocations and the tool effect, or moves on when there are none |
| AgentRun.ReplyStep | packages/embedagent-core/src/embedagent_core/agent_kernel.py:287-344 | a reply closes the request; it ends the run or opens the preparation of its calls |
| AgentRun.ContextStep | packages/embedagent-core/src/embedagent_core/agent_kernel.py:259-285 | an assembled context closes its operation and opens the request of the next attempt |
| AgentRun.UnclosedLedger | packages/embedagent-core/src/embedagent_core/agent_kernel.py:611-670 | the events made for a failure close the effect and the invocations that are not closed yet, and no other operation |
| AgentRun.ContextLedger | packages/embedagent-core/src/embedagent_core/provider_step_service.py:76-118 | the events of an assembled context close the context operation and leave only a closed snapshot behind |
| AgentKernel.CollectUnclosed | packages/embedagent-core/src/embedagent_core/agent_kernel.py:611-670 | the loops over events and invocations compute the interruptions that the failure step uses |
| AgentProgress.StartTracks | packages/embedagent-core/src/embedagent_core/agent_kernel.py:106-133 | a turn started with unused ids begins with its step and its context open, on top of what the log held open |
| AgentProgress.CommandTracks | packages/embedagent-core/src/embedagent_core/agent_kernel.py:135-181 | the same for a command that runs one tool |
| AgentProgress.ResumeTracks | packages/embedagent-core/src/embedagent_core/agent_kernel.py:183-239 | resuming closes the interaction that was waited for and opens step and preparation |
| AgentLoop.DeliveredIsKept | packages/embedagent-core/src/embedagent_core/agent_loop.py:170-244 | what a service delivered is committed in the next step also when the loop turns the result into a failure |
| AgentOutcome.WhyRunsEnd | packages/embedagent-core/src/embedagent_core/agent_loop.py:148-244 | a run ends aborted, at the limit, waiting for a permission or for input, completed, or stopped by the guard, exactly when its last turn was cancelled or had an interrupted tool, reached the limit, was suspended, gave the final reply or finished a command, or was blank, failed or without progress; in every other turn it goes on |
| AgentOutcome.OutcomeIsLogged | packages/embedagent-core/src/embedagent_core/agent_kernel.py:770-839 | a run has an outcome at its last step only; then the log of the run closes that step and ends with the operation of the interaction that is waited for and a closed savepoint around the transition |
| AgentOutcome.LastModeCounts | packages/embedagent-core/src/embedagent_core/agent_kernel.py:402-458 | after a batch the mode is the one that the last observation to change it chose |
| AgentFlow.ModeFollows | packages/embedagent-core/src/embedagent_core/agent_kernel.py:402-458 | in every turn of every run the mode changes only when a batch ends, to the one that the last observation to choose one chose; the next context is assembled in it and the outcome of a command names it |
| AgentFlow.EffectsFollow | packages/embedagent-core/src/embedagent_core/agent_kernel.py:241-525 | in every run a context is followed by a request that carries what the context deferred, a request by the preparation of its actions or, once, by a compacted context, a preparation by the execution of exactly what it prepared and settled, a batch by the context of the next step |
| AgentFlow.RunCounts | packages/embedagent-core/src/embedagent_core/agent_kernel.py:259-458 | along every run the step counts the batches that ended and the attempt counts the requests; turn, workflow and streaming stay |
| AgentFlow.StartedAsAsked | packages/embedagent-core/src/embedagent_core/agent_kernel.py:106-133 | every effect of a run of a user turn has the workflow and the streaming that the turn was started with, and the first context its mode |
| AgentFlow.ResumedAsAsked | packages/embedagent-core/src/embedagent_core/agent_kernel.py:183-239 | the same for a resumed run, with the workflow, mode and continuation of its batch |
| AgentFlow.OutcomeTells | packages/embedagent-core/src/embedagent_core/agent_kernel.py:287-549 | an outcome tells the text of the final reply, the message of the failure, the interaction waited for and nothing else, and the turns used: those of the limit exactly when it was reached |
| AgentFlow.FinalTextTold | packages/embedagent-core/src/embedagent_core/agent_loop.py:117-244 | the final text of a run is the content of its last reply, or empty without one |
| AgentFlow.RetryNoted | packages/embedagent-core/src/embedagent_core/agent_kernel.py:486-525 | the first request of a run that fails at the limit of the context is noted as a compact retry with its message, and the compacted context of the same step is started |
| AgentFlow.DeferredReachesLog | packages/embedagent-core/src/embedagent_core/provider_step_service.py:76-190 | what assembling a context deferred is written right after its request is closed, with the reply or with the failure that leads to a compacted context |
| AgentTranscript.EachCallAnswered | packages/embedagent-core/src/embedagent_core/agent_kernel.py:287-458 | in every served run in which a prepared batch is executed, the log holds one result for each of its actions, under the call that asked for it, as often as the batch has it and no more |
| AgentTranscript.SettledOnce | packages/embedagent-core/src/embedagent_core/agent_tool_action_service.py:164-251 | the same when the preparation settles every action itself |
| AgentTranscript.TurnSays | packages/embedagent-core/src/embedagent_core/agent_kernel.py:672-736 | a turn adds to the conversation what its result brought, and a reply its message and one planned call for each action |
| AgentEvents.KernelEventsFit | packages/embedagent-core/src/embedagent_core/agent_kernel.py:563-839 | every event that the kernel adds in a turn of any run names its turn, step and kind; it closes operations as finished, but those that a failure leaves open as interrupted with the reason of the failure, and the step so exactly when the run was aborted |
| AgentEvents.ResumeNames | packages/embedagent-core/src/embedagent_core/agent_kernel.py:183-239 | the events of the first step of a resumed run name its turn, step and kinds, and close as finished the interaction that was answered and nothing else |
| AgentEvents.InvocationsFit | packages/embedagent-core/src/embedagent_core/agent_kernel.py:738-768 | each prepared invocation is opened under its own id with the call of its own action |
| AgentEvents.InvocationEnds | packages/embedagent-core/src/embedagent_core/agent_tool_action_service.py:1065-1096 | the operation of an executed invocation is interrupted if and only if its result was interrupted or discarded, with that reason |
| AgentReplies.CutOffReply | packages/embedagent-core/src/embedagent_core/agent_kernel.py:287-344 | main result: in every served run, after a reply whose finish reason, stripped and in lower case, is length, no invocation is handed out and each action is refused as truncated_tool_arguments, in order; after any other reply no action is refused for that reason |
| AgentReplies.ReplyBatch | packages/embedagent-core/src/embedagent_core/agent_kernel.py:317-344 | a reply with actions leads to a new batch of exactly its actions under its message, cut off exactly if the reply was |
| AgentReplies.CommandPrepared | packages/embedagent-core/src/embedagent_core/agent_kernel.py:135-181 | a command prepares its one action first, in its mode and workflow; it is settled, and not as cut off, or handed out |
| AgentResume.ResumedAsInline | packages/embedagent-core/src/embedagent_core/session_input.py:999-1254 | main result: a batch that is suspended, rebuilt from its checkpoint and resumed by runs of its own, any number of times, ends with the invocations, immediate results and events of answering inline, under exactly the condition of InlineUnlessAsked; no action is asked about twice |
| AgentResume.SuspensionTells | packages/embedagent-core/src/embedagent_core/agent_tool_action_service.py:207-251 | when a turn of a served run is suspended, the run ends waiting for the permission or the input that an action of its batch needs and nobody gave, for the tool of that action; it is the first such action and never the one that the batch was resumed with |
| AgentResume.WaitingTold | packages/embedagent-core/src/embedagent_core/agent_tool_action_service.py:253-421 | an action waits for a permission if and only if it is neither denied nor granted and nobody answers, and for input if and only if it is interactive, was granted or approved, and nobody responds |
| AgentResume.ResumedSettles | packages/embedagent-core/src/embedagent_core/agent_kernel.py:183-239 | the first step of a resumed run, whatever the world is by then: everything settled before is kept, the suspended action comes next, settled by the answer alone and not asked about again, and every action up to the stop has one slot |
| AgentResume.ResumedStepPrepares | packages/embedagent-core/src/embedagent_core/agent_kernel.py:183-239 | a resumed run begins if and only if mode and workflow are still those of the batch, and its first effect prepares the batch as it stood, with the answer |
| AgentProgress.EffectFreshness | packages/embedagent-core/src/embedagent_core/agent_kernel.py:241-243 | an effect id that was expected once is refused as effect_result_mismatch at every later cursor of the run, and its text differs from that of every later one |
| AgentProgress.EffectsInOrder | packages/embedagent-core/src/embedagent_core/agent_kernel.py:913-919 | the expected effects of a run come in strictly increasing order of step, attempt and kind |
| AgentProgress.TickForward | packages/embedagent-core/src/embedagent_core/agent_loop.py:148-244 | the loop never hands the kernel a result that the kernel refuses, and each turn moves the run forward |
| AgentDrive.LoopBound | packages/embedagent-core/src/embedagent_core/agent_loop.py:345-353 | with a limit of n turns a run from step 1 executes at most 4n + 2 effects and n + 1 provider requests, never leaves step n, and has ended when the bound is reached; from a later step s at most 4(n - s) + 6 and n - s + 2, and 6 and 2 when it begins beyond the limit |
| AgentDrive.ResumedBound | packages/embedagent-core/src/embedagent_core/agent_loop.py:345-353 | the same for a resumed run, which has its tools first: at most 4(n - s) + 4 effects and n - s + 1 requests, 4 and 1 beyond the limit, 2 and none if it is to end after its tools |
| AgentDrive.CommandBound | packages/embedagent-core/src/embedagent_core/agent_kernel.py:135-181 | a command executes at most two effects and requests nothing from the provider, with or without a limit |
| AgentDrive.CompleteEnds | packages/embedagent-core/src/embedagent_core/agent_kernel.py:402-458 | a run that is to end after its tools executes at most two effects, with or without a limit |
| AgentDrive.OneCompactRetry | packages/embedagent-core/src/embedagent_core/agent_kernel.py:486-525 | a compacted context is asked for at most once in a run |
| AgentDrive.RunBudget | packages/embedagent-core/src/embedagent_core/agent_loop.py:117-244 | along every run, effects and requests spent and still possible stay within the first budget |
| AgentDrive.Drive | packages/embedagent-core/src/embedagent_core/agent_loop.py:117-244 | the loop, which notes each commit and each execution where it is done, appends the events of the steps of the run and executes their effects in an order that is given exactly; in every run that is begun in one of the three ways each effect follows the commit of its start; it returns the outcome of the last step with the text of the last reply |
| AgentDrive.RunWritesAhead | packages/embedagent-core/src/embedagent_core/agent_loop.py:148-244 | however a run began, every effect of it is executed right after a commit that ends with the start of its operation, and what was appended is the log of its steps |
| AgentDrive.RunStepsAreARun | packages/embedagent-core/src/embedagent_core/agent_loop.py:148-244 | what the loop goes through, fed by the services, is a run in the sense of the results above |
| OperationIds.RenderInjective | packages/embedagent-core/src/embedagent_core/agent_kernel.py:841-919 | distinct operations have distinct texts: turns, steps of runs and of mode switches, effects, snapshots, tools, interactions, savepoints of the kernel and of the lifecycle journal, patches |
| OperationIds.EffectTextInjective | packages/embedagent-core/src/embedagent_core/agent_kernel.py:913-919 | distinct effects have distinct ids |
| OperationIds.MessageTextInjective | packages/embedagent-core/src/embedagent_core/agent_kernel.py:703-708 | distinct steps and attempts have distinct assistant message ids |
| OperationIds.KeyInjective | packages/embedagent-core/src/embedagent_core/session_operation_log.py:86-91 | the reducer files two operations of any of these families under one key only if they are the same, two patches excepted; stripping a patch id never gives the key of another kind of operation |
| OperationLog.Reduce | packages/embedagent-core/src/embedagent_core/session_operation_log.py:52-66 | the reducer folds the log, and when asked closes unfinished work; every record of the result is told by the log alone: finished or interrupted by its last closing event, started or swept without one |
| OperationLog.LogTells | packages/embedagent-core/src/embedagent_core/session_operation_log.py:68-150 | for any log: an operation is known if and only if an event starts or closes it; it is finished if and only if the last event that closes it finishes it, with the result of that event and no reason; interrupted if and only if that event interrupts it, with its reason or operation_interrupted; its start is told by its first event and by the starts before it was closed |
| OperationLog.RestoreTells | packages/embedagent-core/src/embedagent_core/session_operation_log.py:152-159 | after the sweep an operation is interrupted as restore_incomplete_operation if and only if no event closes it, and all others are as the log tells |
| OperationLog.OperationLogState.InterruptUnfinished | packages/embedagent-core/src/embedagent_core/session_operation_log.py:152-159 | exactly the open records become interrupted, in one pass over the order |
| OperationLog.FoldedKeeps | packages/embedagent-core/src/embedagent_core/session_operation_log.py:52-84 | the order lists the known operations once each, every record under its own stripped id |
| OperationLog.TerminalForever | packages/embedagent-core/src/embedagent_core/session_operation_log.py:68-75 | a closed operation stays closed whatever follows, and keeps its start, kind, call and metadata |
| AgentRestore.FoldAgrees | packages/embedagent-core/src/embedagent_core/session_operation_log.py:52-150 | the fold of a stored log holds as started and closed what the ledger of the events says |
| AgentRestore.CrashRestore | packages/embedagent-core/src/embedagent_core/session_operation_log.py:152-159 | main result: after a crash at any commit point of any run the reducer finds started exactly the operations that the machine holds open there and those outside the run, and marks exactly these as restore_incomplete_operation |
| AgentRestore.RestoreOf | packages/embedagent-core/src/embedagent_core/session_journal.py:158-173 | the same for any part of a log that a restore has consumed: started and marked is exactly what is open in that part |
| AgentRestore.StartBegins | packages/embedagent-core/src/embedagent_core/agent_lifecycle.py:214-231 | a run of a user turn begins with the operation of its turn open beside it, as begin_turn has written it |
| AgentRestore.CommandBegins | packages/embedagent-core/src/embedagent_core/session_input.py:907-925 | the same for a command that runs one tool |
| AgentRestore.ResumeBegins | packages/embedagent-core/src/embedagent_core/session_input.py:999-1035 | the same for a resumed run, which also closes the interaction that was waited for |
| AgentRestore.CrashMarksTurn | packages/embedagent-core/src/embedagent_core/session_operation_log.py:68-75 | after a crash in a run the reducer finds its turn started, if and only if no operation of its name was closed before the run |
| AgentRestore.ResumedTurnUnmarked | packages/embedagent-core/src/embedagent_core/session_input.py:999-1085 | the case in which it does not: a suspension has finished the turn, and resuming starts it again under the same name |
| AgentRestore.ResumedInstance | packages/embedagent-core/src/embedagent_core/session_input.py:999-1085 | the instance: turn t is suspended by a question in its first step and resumed in its second; after a crash there the second step is found started and the turn is not |
| AgentRestore.RunKeyed | packages/embedagent-core/src/embedagent_core/agent_kernel.py:770-839 | every operation id in the log of a run is one that the reducer keeps as it is, or a patch |
| ToolPreparation.Prepare | packages/embedagent-core/src/embedagent_core/agent_tool_action_service.py:153-205 | the index loop over the actions returns what the batch specification says |
| ToolPreparation.PrepareServes | packages/embedagent-core/src/embedagent_core/agent_tool_action_service.py:164-251 | every action of a sound batch gets exactly one slot, lists in increasing order; suspension only in a batch that was not cut off; the result is one that the kernel relies on, with the question asked last under an id without white space around it |
| ToolPreparation.PrepareFromPlaced | packages/embedagent-core/src/embedagent_core/agent_tool_action_service.py:164-205 | wherever a preparation stops, every action before has one slot that carries its own action, id and category |
| ToolPreparation.FirstWaiting | packages/embedagent-core/src/embedagent_core/agent_tool_action_service.py:169-193 | a preparation stops at the first action that waits for an answer and at no other |
| ToolPreparation.OnlyPermittedRun | packages/embedagent-core/src/embedagent_core/agent_tool_action_service.py:253-421 | an action becomes an invocation if and only if its output was complete, the mode allows it, no hook stops it, no rule denies it and it is granted or was approved, its path may be written, it is not interactive and the catalog has its tool; then it is the action of the hook, under its category |
| ToolPreparation.PolicyHolds | packages/embedagent-core/src/embedagent_core/permissions.py:123-207 | in terms of the rule, the remembered categories and the approve flags: an action that a rule denies is refused as permission_denied whatever anyone answers; one that is granted is never asked about; all others wait for an answer or need an approval |
| ToolPreparation.StoppedBeforePolicy | packages/embedagent-core/src/embedagent_core/agent_tool_action_service.py:253-330 | an action that is cut off, not allowed in its mode, blocked by a hook or rewritten to something unsafe is refused for that reason and never reaches the policy |
| AgentBatches.ServedIsRun | packages/embedagent-core/src/embedagent_core/agent_tool_action_service.py:153-205 | every batch that a run prepares is sound, so what the modelled services make of a run is a run in the sense of all results about runs |
| AgentBatches.OnlyPermittedExecuted | packages/embedagent-core/src/embedagent_core/agent_tool_action_service.py:253-496 | in every run, every invocation handed out for execution was cleared when its batch was prepared, in the step before, or in one of the sittings that led to the run by way of suspensions: no rule denied it, and it was granted, approved or, where the batch was resumed for it, approved after it had been asked about in the sitting before |
| ToolClearance.AllCleared | packages/embedagent-core/src/embedagent_core/agent_tool_action_service.py:153-251 | the same for every preparation of a batch that was suspended and rebuilt from its checkpoint any number of times, whatever the world was each time |
| ToolCheckpoint.RebuildRestores | packages/embedagent-core/src/embedagent_core/session_input.py:1122-1254 | the checkpoint of a suspended batch passes all checks and gives back the batch as it stood with the answer, if and only if mode and workflow are unchanged; else interaction_checkpoint_invalid |
| ToolCheckpoint.RebuiltIsWhole | packages/embedagent-core/src/embedagent_core/session_input.py:1122-1254 | whatever the store holds, a batch is rebuilt only for the interaction that is answered, in its mode and workflow and for the action that was shown, with exactly one item for each action before, under its own action and operation |
| ToolCheckpoint.ResumedIsSound | packages/embedagent-core/src/embedagent_core/agent_tool_action_service.py:207-251 | a resumed batch is sound again, so all results hold for it |
| ToolConversation.SuspendedAsInline | packages/embedagent-core/src/embedagent_core/agent_tool_action_service.py:153-251 | a batch suspended and resumed any number of times ends with the invocations, immediate results and events of answering inline, if and only if no suspension was a detour: a permission prompt for ask_user or propose_mode_switch that is then approved |
| ToolConversation.InlineUnlessAsked | packages/embedagent-core/src/embedagent_core/agent_tool_action_service.py:153-251 | main result: the same with the condition on what goes in: some interactive action passes the checks before the policy, the policy asks about it, nobody answers, and the later answer approves |
| ToolConversation.NoDetourByPolicy | packages/embedagent-core/src/embedagent_core/permissions.py:123-207 | under a policy that never asks about the two interactive tools there is no detour |
| ToolConversation.AskedTwice | packages/embedagent-core/src/embedagent_core/agent_tool_action_service.py:423-496 | in every world whose hook lets such an action through and whose policy asks about it, a batch of that action alone ends differently |
| ToolConversation.ModeSwitchDetour | packages/embedagent-core/src/embedagent_core/agent_tool_action_service.py:423-496 | the instance: propose_mode_switch under a policy that asks about everything |
| ToolConversation.ResumedAlike | packages/embedagent-core/src/embedagent_core/agent_tool_action_service.py:423-496 | resuming one action equals answering inline, if and only if it is no detour |
| ToolConversation.ConversationProgress | packages/embedagent-core/src/embedagent_core/agent_tool_action_service.py:164-205 | suspensions come at strictly later actions, so there are no more than actions left, and what was settled stays |
| ToolAnswers.AnswerChooses | packages/embedagent-core/src/embedagent_core/agent_tool_action_service.py:937-966 | an answered action succeeds under its own name, and asks for another mode if and only if the user picks one that is not the current one: the one selected or, for a proposed switch answered without one, the one proposed |
| ToolAnswers.RefusalsNoted | packages/embedagent-core/src/embedagent_core/agent_tool_action_service.py:582-616 | the events of a preparation note each refused permission, by a rule or by an answer, right before its result, and nothing else in that way |
| ToolAnswers.PickedModeIsTaken | packages/embedagent-core/src/embedagent_core/agent_kernel.py:402-458 | when a batch ends and the last observation to choose a mode is such an answer, the run goes on in the mode that was picked |
| ToolAnswers.OnlySafeTogether | packages/embedagent-core/src/embedagent_core/tool_execution.py:265-277 | invocations of one preparation run together only if the catalog declares the tools of all of them read-only and safe to run concurrently |
| ToolExecution.PartitionToolActions | packages/embedagent-core/src/embedagent_core/tool_execution.py:265-277 | the invocations fall into maximal groups of one kind, in order |
| ToolExecution.PartitionUnique | packages/embedagent-core/src/embedagent_core/tool_execution.py:265-277 | there is only one such partition |
| ToolExecution.ExecutePrepared | packages/embedagent-core/src/embedagent_core/agent_tool_action_service.py:618-733 | the loop over groups, with discarding and interruption, collects the entries that the specification says |
| ToolExecution.ExecuteSerial | packages/embedagent-core/src/embedagent_core/agent_tool_action_service.py:696-715 | invocations that run alone: what is stopped, interrupted or dispatched, and whether the rest is discarded |
| ToolExecution.ExecuteParallel | packages/embedagent-core/src/embedagent_core/agent_tool_action_service.py:659-694 | updates of a parallel group, interleaved in any way, and whether the rest is discarded |
| ToolResults.RunPermutes | packages/embedagent-core/src/embedagent_core/agent_tool_action_service.py:648-715 | whatever is stopped, interrupted or discarded, every invocation gets exactly one entry |
| ToolResults.DroppedAfter | packages/embedagent-core/src/embedagent_core/agent_tool_action_service.py:648-658 | once a group has discarded something, every invocation of the groups that follow is dropped and none is dispatched |
| ToolOutcomes.AllEnd | packages/embedagent-core/src/embedagent_core/agent_tool_action_service.py:648-715 | every entry of an executed batch: after a disturbed group an invocation is discarded; one that runs alone is discarded when the turn was stopped before it, interrupted when it was stopped right after its start, else dispatched; a report of a parallel group counts as interrupted once the turn was stopped, unless it was discarded |
| ToolOutcomes.BatchTold | packages/embedagent-core/src/embedagent_core/agent_tool_action_service.py:618-733 | the same for what the batch hands on: observation k is that of the immediate result of action k, or of what became of its invocation |
| ToolOutcomes.StoppedHandedOn | packages/embedagent-core/src/embedagent_core/agent_tool_action_service.py:696-715 | an invocation that runs alone and was stopped hands on discarded, or interrupted if it had started |
| ToolOutcomes.UndispatchedUnseen | packages/embedagent-core/src/embedagent_core/agent_tool_action_service.py:648-715 | two worlds that differ only in what dispatching stopped invocations, or those after a disturbed group, would give return the same result |
| ToolResults.AllDispatched | packages/embedagent-core/src/embedagent_core/agent_tool_action_service.py:659-715 | in a batch without stop, interruption or discarding every invocation is dispatched |
| ToolResults.CollectServes | packages/embedagent-core/src/embedagent_core/agent_tool_action_service.py:717-733 | one observation for each action and one completion for each invocation in source order, for every order of finishing |
| ToolResults.TokensKept | packages/embedagent-core/src/embedagent_core/agent_tool_action_service.py:717-733 | the commit tokens of the result are exactly those of the completed invocations |
| ToolResults.AnyOrder | packages/embedagent-core/src/embedagent_core/agent_tool_action_service.py:720-733 | the result does not depend on the order in which invocations finished |
| ToolResults.ExecuteServes | packages/embedagent-core/src/embedagent_core/agent_tool_action_service.py:618-733 | the executed batch returns what the kernel relies on |
| ToolResults.ClosedOnce | packages/embedagent-core/src/embedagent_core/agent_tool_action_service.py:978-1063 | the events of a batch close the operation of each invocation exactly once |
| ToolResults.PairsAreOwn | packages/embedagent-core/src/embedagent_core/agent_loop.py:355-387 | a batch of n actions ends with n pairs, pair k being action k with the observation of its own slot |
| ScopeSafety.AlwaysSafe | packages/embedagent-core/src/embedagent_core/registration_scope.py:113-246 | main result: in every state of every interleaving each disposer was called at most once and its call is never lost, every list holds exactly the active registrations, the quiescent flag is set if and only if no operation is active, and a scope has at most one disposing call |
| ScopeSafety.QuietDisposal | packages/embedagent-core/src/embedagent_core/registration_scope.py:229-234 | whenever a disposing call runs a disposer, it is one of its own scope that never ran, and no admitted operation is in flight |
| ScopeChildren.ChildrenFirst | packages/embedagent-core/src/embedagent_core/registration_scope.py:220-234 | whenever a disposing call runs one of its own disposers, under any interleaving, every child its scope ever had is disposed, or is being disposed further up on the same thread |
| ScopeChildren.ChildrenForgotten | packages/embedagent-core/src/embedagent_core/registration_scope.py:236-280 | in every state of every interleaving a scope lists children of its own only, and none that is disposed once the call that disposed of it has returned |
| ScopeSafety.ClosedForGood | packages/embedagent-core/src/embedagent_core/registration_scope.py:264-266 | once a scope has left ACTIVE, no registration, no operation and no child is admitted, however the run goes on |
| ScopeSafety.ClaimedOnce | packages/embedagent-core/src/embedagent_core/registration_scope.py:189-218 | a scope is claimed by at most one disposing call in a run |
| ScopeSafety.DisposedIsClean | packages/embedagent-core/src/embedagent_core/registration_scope.py:236-246 | a disposed scope has no registration left; a disposer of it that did not run yet is in the hands of the individual call or the rollback that took it |
| ScopeSafety.TicketedKept | packages/embedagent-core/src/embedagent_core/registration_scope.py:121-129 | no step copies or loses the right to call a disposer |
| ScopeCalls.RollbackSpares | packages/embedagent-core/src/embedagent_core/registration_scope.py:138-151 | under every interleaving a transaction that fails undoes only registrations made since it began; those of before that are still listed stay, and no more stay than there were |
| ScopeCalls.LatestFirst | packages/embedagent-core/src/embedagent_core/registration_scope.py:229-234 | under every interleaving a call runs the disposers that it has taken over from the last to the first: those it still holds never ran, the others ran exactly once |
| ScopeCalls.LatestChildFirst | packages/embedagent-core/src/embedagent_core/registration_scope.py:220-228 | under every interleaving a disposing call turns to a child only when disposing of all later ones has returned |
| ScopeCalls.AdmitsNoMore | packages/embedagent-core/src/embedagent_core/registration_scope.py:169-218 | once a scope was quiesced or somebody has begun to dispose of it, no registration, child, operation or transaction is admitted to it, in whatever way the run goes on |
| ScopeCalls.DisposeReturns | packages/embedagent-core/src/embedagent_core/registration_scope.py:186-248 | under every interleaving a disposing call returns only when the scope is disposed, whoever does it, and at once only on a thread that is itself disposing of it |
| ScopeTree.ScopeForest.Dispose | packages/embedagent-core/src/embedagent_core/registration_scope.py:186-246 | disposing runs the disposers in the stated order although some raise, collects the failures in that order, drops the registrations, and leaves the subtree disposed and forgotten by its parent |
| ScopeOrder.OrderCovers | packages/embedagent-core/src/embedagent_core/registration_scope.py:220-234 | that order holds every active registration of the subtree exactly once and no other |
| ScopeSequence.OrderIsInOrder | packages/embedagent-core/src/embedagent_core/registration_scope.py:220-234 | told without the recursion: what is registered further down is undone first, later branches before earlier ones, and within one scope the latest first |
| ScopeTree.ScopeForest.Quiesce | packages/embedagent-core/src/embedagent_core/registration_scope.py:169-181 | the recursion over the children stops admission in exactly the scopes of the subtree that were active |
| ScopeActs.QuiescedForGood | packages/embedagent-core/src/embedagent_core/registration_scope.py:169-181 | once a scope was told to quiesce, whatever is done, no scope that was under it lists anything new or gets a child |
| ScopeTree.ScopeForest.Rollback | packages/embedagent-core/src/embedagent_core/registration_scope.py:250-262 | a rollback undoes what lies beyond the checkpoint, latest first, and collects the failures |
| ScopeTree.ScopeForest.Transaction | packages/embedagent-core/src/embedagent_core/registration_scope.py:138-151 | the whole state after a transaction is given exactly, for every body: registrations, individual disposals, quiescing, disposals and inner transactions in any scopes. When it fails, of what was made in it and is still listed the first ones stay, as many as earlier registrations of the scope were disposed of in the body, and the others are undone, the latest first; so nothing new stays if and only if none was, or nothing made in it is left |
| ScopeActs.RollbackExact | packages/embedagent-core/src/embedagent_core/registration_scope.py:138-151 | the same about what the acts come to; then what is undone is exactly what was made in the transaction, and no earlier registration is ever undone |
| ScopeTree.LeftBehind | packages/embedagent-core/src/embedagent_core/registration_scope.py:138-151 | the instance, run as a transaction: two registrations, the first disposed of in the body and a third made; the third stays |
| ScopeTree.ScopeForest.Register | packages/embedagent-core/src/embedagent_core/registration_scope.py:113-129 | a registration is appended to an active scope and refused by any other |
| ScopeTree.ScopeForest.DisposeOne | packages/embedagent-core/src/embedagent_core/registration_scope.py:121-127 | the first individual disposal removes the registration and runs it, later ones do nothing |
| ScopeTree.ScopeForest.Create | packages/embedagent-core/src/embedagent_core/registration_scope.py:40-68 | a child is appended to an active parent and refused by any other |
| ComponentSelection.SelectComponents | packages/embedagent-composition/src/embedagent_composition/compiler.py:51-69 | the selection is the least set with the references that is closed under requires; conflict, unknown component and dependency_cycle are raised exactly when they exist; the order lists every component once and after all it needs |
| ComponentSelection.Collect | packages/embedagent-composition/src/embedagent_composition/compiler.py:55-63 | the worklist finds that least set, and fails exactly for an unknown reference |
| ComponentSelection.OrderForgetsListing | packages/embedagent-composition/src/embedagent_composition/compiler.py:25-48 | the order does not depend on the order of references and requires |
| ComponentSelection.OrderOfSelected | packages/embedagent-composition/src/embedagent_composition/compiler.py:25-48 | ordering the selection fails if and only if the references reach a cycle |
| ComponentSelection.ComponentCatalog.Register | packages/embedagent-composition/src/embedagent_composition/catalog.py:42-64 | a manifest is filed under its stripped id; a frozen catalog, a blank and a known id are refused |
| ComponentSelection.ComponentCatalog.Freeze | packages/embedagent-composition/src/embedagent_composition/catalog.py:66-101 | freezing succeeds if and only if there is a distribution, every distribution that a manifest names is one, distributions own themselves, requires and conflicts are known, and no two components share a namespace |
| ComponentSelection.ClaimNamespaces | packages/embedagent-composition/src/embedagent_composition/catalog.py:94-99 | a namespace is claimed by one component only |
| DepthFirst.OrderIsRight | packages/embedagent-composition/src/embedagent_composition/compiler.py:25-48 | depth-first ordering succeeds if and only if the roots reach neither a cycle nor an unknown node, and then orders the least closed set |
| DepthFirst.Search.Walk | packages/embedagent-composition/src/embedagent_composition/compiler.py:33-44 | the recursive visit with its sets and its list computes that order |
| RuntimeClosure.CloseRuntime | packages/embedagent-composition/src/embedagent_composition/bundle.py:235-268 | the result is the least capability set with the inputs that is closed under what providers require, and exactly the providers of that set; it fails if and only if a needed capability has no provider or the components reached form a cycle |
| RuntimeClosure.Closure.ResolveComponent | packages/embedagent-composition/src/embedagent_composition/bundle.py:253-264 | the mutual recursion over components and capabilities, which grows the requirements as it goes, visits what the search visits |
| RuntimeClosure.ClosureIsLeast | packages/embedagent-composition/src/embedagent_composition/bundle.py:235-268 | requirements and selected components of a finished search are the least ones |
| RuntimeClosure.IndexRuntimeComponents | packages/embedagent-composition/src/embedagent_composition/bundle.py:197-232 | indexing succeeds if and only if every record is good and no two share an id or a capability; then each record is filed with its stripped lists, and every capability has exactly the one provider that lists it |
| BundlePlan.CloseApplication | packages/embedagent-composition/src/embedagent_composition/bundle.py:101-168 | the closure of the owned components, with exactly the stated errors |
| BundlePlan.Project | packages/embedagent-composition/src/embedagent_composition/bundle.py:146-168 | requirements and entries of what is owned, distributions of the whole closure, each once |
| BundlePlan.DeriveDistributionClosure | packages/embedagent-composition/src/embedagent_composition/compiler.py:72-88 | distributions and entries of the components, once each, in order |
| BundlePlan.UniqueTold | packages/embedagent-composition/src/embedagent_composition/compiler.py:72-88 | lists are freed of repetitions in the order in which their texts first occur |
| BundlePlan.ProfilesTold | packages/embedagent-composition/src/embedagent_composition/bundle.py:101-120 | the application has an owner exactly when one component and no other is a profile |
| BundleCompile.ApplicationNeverFails | packages/embedagent-composition/src/embedagent_composition/bundle.py:127-144 | on compiled components the application closure finds neither an unknown component nor a cycle |
| BundleCompile.CompileBundlePlan | packages/embedagent-composition/src/embedagent_composition/bundle.py:411-436 | a plan is compiled if and only if the references are known, nothing in the least selection conflicts or needs itself, every component has a distribution and one is a profile, and the runtime records are good and provide what is demanded without a cycle; then every list of it is told from the selection and the least runtime closure, the application lies within the project, and no list has blanks or repetitions |
| BundleCompile.ApplicationMeans | packages/embedagent-composition/src/embedagent_composition/bundle.py:101-168 | the application requires exactly what the components of the distribution of the profile require and has exactly their entries; its distributions are exactly those of the least set of components that these need |
| BundleLoad.LoadBundlePlan | scripts/bundle_plan.py:42-69 | a plan is accepted if and only if its lists are good and, for an isolated application, it lies within its project; none of the three outside-closure rejections fires for a compiled plan |
| BundleLoad.CompiledIsLoadable | scripts/bundle_plan.py:15-69 | a compiled plan is accepted if and only if it has a distribution and no two with one name up to case and separators and, for an isolated application, that has some distribution, requirement and entry |
| BundleLoad.SameNormalized | scripts/bundle_plan.py:9-10 | two names of distributions count as one if and only if they differ in nothing but case and kind of separator |
| SessionJournal.SessionJournal.Commit | packages/embedagent-core/src/embedagent_core/session_journal.py:61-97 | the exact conditions of all five ends: a batch with a rejected intent leaves log and session alone; otherwise both advance together, also when the log breaks midway; the session falls behind by one event exactly when the log keeps it under another id, or an interaction expires between trial and storing |
| SessionJournal.StaysConsistent | packages/embedagent-core/src/embedagent_core/session_journal.py:85-97 | whatever the log folded to the session before a commit, it folds to the session after it, less the last event if that has expired |
| SessionJournal.CommitThenRestore | packages/embedagent-core/src/embedagent_core/session_journal.py:99-173 | a restore after a commit consumes every event, passes over none, and gives back the session, if and only if no interaction in the log has expired by the time it is read |
| SessionJournal.RestoreRebuilds | packages/embedagent-core/src/embedagent_core/session_journal.py:129-157 | a log is consumed to its end with nothing passed over if and only if no event is rejected and no interaction has expired; without a trusted part nothing is passed over |
| SessionJournal.RestoreExpires | packages/embedagent-core/src/embedagent_core/session_reducer.py:365-371 | the first interaction that has expired, 300 seconds after it was asked: the restore ends before it with the session as it was there, or passes over it in the trusted part |
| SessionJournal.QuestionTold | packages/embedagent-core/src/embedagent_core/session_reducer.py:353-384 | a question is taken if and only if it names an interaction that nobody has asked about and has no date, or a readable one not more than 300 seconds old; age is looked at before repetition |
| SessionJournal.QuestionLasts | packages/embedagent-core/src/embedagent_core/session_reducer.py:602-613 | a log of one question is restored for 300 seconds after its date, for ever without one, and never with one that cannot be read |
| SessionJournal.NeverComesBack | packages/embedagent-core/src/embedagent_core/session_journal.py:129-158 | a log that folds and was once not restored whole never is again, and with no part trusted a later restore never gets further |
| SessionJournal.ExpiredSession | packages/embedagent-core/src/embedagent_core/session_reducer.py:602-613 | the instance: a question committed without a fault, and 301 seconds later the default policy restores nothing |
| SessionJournal.CapitalSession | packages/embedagent-core/src/embedagent_core/session_log.py:69-79 | the instance of a session id that the log does not keep as it is: its first commit ends out of step |
| SessionJournal.RestoreIsFold | packages/embedagent-core/src/embedagent_core/session_journal.py:129-158 | all events passed over lie in the trusted part, and the session is the fold of what was consumed less those |
| SessionJournal.RestoreSkips | packages/embedagent-core/src/embedagent_core/session_journal.py:131-157 | every event that is passed over was rejected there and then, in the trusted part, and not because the transcript was empty |
| SessionJournal.RestoreStops | packages/embedagent-core/src/embedagent_core/session_journal.py:131-157 | a restore ends early only at an event that is rejected there and lies beyond the trusted part, or when the transcript is empty |
| SessionJournal.Fold | packages/embedagent-core/src/embedagent_core/session_journal.py:113-157 | the loop of a restore computes that fold |
| SessionJournal.InMemorySessionLog.AppendEvent | packages/embedagent-core/src/embedagent_core/session_log.py:88-114 | events of a session are appended under its normalized id and numbered from one without a gap |
| ParentChain.ValidateParentChain | packages/embedagent-core/src/embedagent_core/session.py:609-635 | a list is accepted if and only if its chain is unbroken; else the first broken message and the reason are returned |
| ParentChain.GetMessageChain | packages/embedagent-core/src/embedagent_core/session.py:638-669 | the walk ends on every list of messages and returns the specified chain |
| ParentChain.ChainTold | packages/embedagent-core/src/embedagent_core/session.py:638-669 | on every list, broken or not, and for every index the result is the one chain that ends with the message asked for, or the last one: each message before is the first with the id named as parent that is not on the chain yet, none is on it twice, and nothing is left to put in front |
| ParentChain.ValidIffFullChains | packages/embedagent-core/src/embedagent_core/session.py:609-669 | a list is valid if and only if its first message has no parent and the walk from every message rises from the first one, parent by parent, duplicate and empty ids included |
| CommandLine.QuoteArgument | scripts/launcher/embedagent_gui_launcher.cpp:72-104 | the loop with its backslash counter writes the quoted form |
| CommandLine.QuotedIfNeeded | scripts/launcher/embedagent_gui_launcher.cpp:72-81 | an argument is left as it is if and only if it has some text and neither a blank nor a double quote in it |
| CommandLine.BuildCommandLine | scripts/launcher/embedagent_gui_launcher.cpp:202-214 | the command is the program, the script and the arguments, each quoted, with one space between |
| CommandLine.CommandLineRoundTrip | scripts/launcher/embedagent_gui_launcher.cpp:202-214 | main result: the documented parsing rules give back exactly the list of arguments after the program name, for all backslashes, quotes, blanks and empty arguments, with either rule for a doubled quote |
| CommandLine.ParseCommandTail | scripts/launcher/embedagent_gui_launcher.cpp:72-104 | parsing undoes quoting, argument by argument |

## Left out

- Payloads of events, metadata, timestamps and results that no modelled branch reads; JSON text: argument objects are abstract values in canonical form.
- Observers, user interface callbacks, notifications and the finalization of commit tokens.
- The progress guard, permission rules, write-path rules and regular expressions: oracles.
- Session reducer: a function of session and event, apart from the age of interactions, that leaves the session alone when it rejects an event; in the source a rejected system message may have archived others before, which matters only in a restore.
- Exceptions that escape a service in the middle of an effect, and errors raised by handlers and hooks.
- Effect results are matched by id; a result of a kind that does not belong to its effect is not fed to the kernel.
- The text of errors where the source formats values into it; lower-casing of letters outside ASCII.
- The executor's threads, timeouts and queue: a parallel group reports each result once, in any order.
- Which of several faults a freeze of the catalog reports first, and the patterns that ids and assets must match.
- Shells, gates, launchers, assets, Python features, conditions and digests of a bundle plan: one-pass selections.
- Diagnostics of the operation log, leases of the session log, and the other reducers that a restore runs.
- Wide characters of the launcher are characters; the program's path has no double quote, which Windows paths cannot contain; setting up the environment and starting the process.
- AgentReplies.CutOffReply: that no other action is refused as cut off takes it that the write-path rules, an oracle, do not give that reason themselves.
- ToolOutcomes.StoppedHandedOn: completing an invocation keeps the kind of its observation there; an extension's hook may replace it, which `ToolOutcomes.AllEnd` allows for.
- ScopeTree.ScopeForest.Dispose: scopes are places in one sequence that the methods reassign, so aliasing of scope objects is not modelled; no operation is in flight, so waiting for quiescence returns at once.
- ScopeTree.ScopeForest.Transaction: disposers do not act on the scopes themselves.
- ScopeSafety.AlwaysSafe: deadlock is not modelled, nor exceptions that a thread raises in another.
- OperationIds.KeyInjective: two workflow patches may be filed under one key, because the call id is free text that may end in white space; each patch is closed in the batch of events that starts it.
- AgentInvariant.OpenOperations: a run begins with ids that the log has not used, as ids of new turns and steps are, and on a log in which no patch was left open.
- AgentRestore.CrashRestore: the reducer reads the whole log there; `RestoreOf` says what it finds in a part of one.
