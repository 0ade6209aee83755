/** The preparation of a tool batch: every action becomes an invocation or an immediate
    result, or the batch is suspended at an action that waits for an answer. */
module ToolPreparation {
  import opened Outcomes
  import opened Text
  import opened OperationIds
  import opened AgentEffects
  import opened OperationLedger
  import opened AgentServices

  // ------------------------------------------------------------------ policy

  datatype RuleDecision = AllowRule | DenyRule(reason: string) | AskRule

  /** `category` looks a tool's category up; `rule` is the last matching rule. */
  datatype Policy = Policy(
    category: string -> string,
    rule: (ToolAction, string) -> Option<RuleDecision>,
    remembered: set<string>,
    approveAll: bool,
    approveWrites: bool,
    approveCommands: bool)

  datatype Decision = Allow(category: string) | Deny(error: string, category: string)
                    | Ask(requested: string, category: string)

  const OFFICIAL := {"read", "workspace_write", "shell_exec", "toolchain_exec", "git_write", "network", "telemetry",
                     "other"}

  function CategoryOf(policy: Policy, name: string): string {
    var category := Strip(policy.category(name));
    if category in OFFICIAL then category else "other"
  }

  function Evaluate(policy: Policy, action: ToolAction): Decision {
    var category := CategoryOf(policy, action.name);
    match policy.rule(action, category)
    case Some(AllowRule) => Allow(category)
    case Some(DenyRule(reason)) => Deny(reason, category)
    case Some(AskRule) => Ask(category, category)
    case None =>
      if category in policy.remembered || policy.approveAll || category == "read" then Allow(category)
      else if category == "workspace_write" || category == "git_write" then
        if policy.approveWrites then Allow(category) else Ask(category, category)
      else if category == "shell_exec" || category == "toolchain_exec" then
        if policy.approveCommands then Allow(category) else Ask(category, category)
      else if category == "network" || category == "telemetry" then Ask(category, category)
      else Ask("other", category)
  }

  /** The rule that matches the action, if any; a rule sees the category that counts. */
  function RuleFor(policy: Policy, action: ToolAction): Option<RuleDecision> {
    policy.rule(action, CategoryOf(policy, action.name))
  }

  /** A rule denies the action. */
  predicate Denies(policy: Policy, action: ToolAction) {
    RuleFor(policy, action).Some? && RuleFor(policy, action).value.DenyRule?
  }

  /** The action needs no question: a rule allows it or, where no rule matches, its category is
      remembered, everything is approved, it reads, or it writes or runs commands and that is
      approved. */
  predicate Grants(policy: Policy, action: ToolAction) {
    var category := CategoryOf(policy, action.name);
    match RuleFor(policy, action)
    case Some(rule) => rule.AllowRule?
    case None =>
      || category in policy.remembered
      || policy.approveAll
      || category == "read"
      || (policy.approveWrites && (category == "workspace_write" || category == "git_write"))
      || (policy.approveCommands && (category == "shell_exec" || category == "toolchain_exec"))
  }

  predicate Asks(policy: Policy, action: ToolAction) {
    !Denies(policy, action) && !Grants(policy, action)
  }

  /** The decision table comes to that. */
  lemma PolicyDecides(policy: Policy, action: ToolAction)
    ensures Evaluate(policy, action).Deny? <==> Denies(policy, action)
    ensures Evaluate(policy, action).Allow? <==> Grants(policy, action)
    ensures Evaluate(policy, action).Ask? <==> Asks(policy, action)
  {
    hide CategoryOf;
  }

  /** A request names the category that the decision was made for, and it is never empty. */
  lemma RequestNamesCategory(policy: Policy, action: ToolAction)
    ensures var decision := Evaluate(policy, action);
            && decision.category == CategoryOf(policy, action.name) && decision.category != ""
            && (decision.Ask? ==> decision.requested == decision.category)
  {
    CategoryIsOfficial(policy, action.name);
    hide CategoryOf;
  }

  lemma CategoryIsOfficial(policy: Policy, name: string)
    ensures var category, given := CategoryOf(policy, name), Strip(policy.category(name));
            && category != ""
            && (category == given || (category == "other" && given !in OFFICIAL))
            && (category in ["read", "workspace_write", "shell_exec", "toolchain_exec", "git_write", "network", "telemetry"]
                || category == "other")
  {
    hide Strip;
    assert "" !in OFFICIAL;
  }

  // ------------------------------------------------------------------- world

  /** What an extension's hook makes of a call; arguments may come back as something that
      is not JSON. */
  datatype Hook = Block(reason: string) | Proceed | Rewrite(arguments: map<string, string>) | Unsafe

  datatype CatalogEntry = CatalogEntry(
    title: string,
    progressKey: string,
    resultKey: string,
    diffPreview: bool,
    category: string,
    readOnly: bool,
    concurrencySafe: bool,
    sourceType: string,
    sourceId: string)

  datatype Failure = Failure(message: string, kind: string)

  /** The policies, hooks and catalog that a preparation consults, all of them fixed. */
  datatype World = World(
    allowed: (string, string, string) -> bool,
    hook: (ToolAction, string, string) -> Hook,
    policy: Policy,
    writeFailure: (ToolAction, string) -> Option<Failure>,
    catalog: string -> Option<CatalogEntry>)

  /** Who answers while the batch is prepared: by source index, nobody or somebody. */
  datatype Handlers = Handlers(permit: nat -> Option<bool>, respond: nat -> Option<Resolution>)

  // ------------------------------------------------------------ observations

  predicate Interactive(name: string) {
    name in ["ask_user", "propose_mode_switch"]
  }

  function Failed(name: string, failure: Failure): Observation {
    Observation(name, false, Some(failure.message), Fields(failure.kind, false, "", map[]))
  }

  const TRUNCATED := Failure("provider output ended before tool arguments were complete", "truncated_tool_arguments")
  const MODE_BLOCKED := Failure("Current mode does not allow tool.", "mode_tool_blocked")
  const UNSAFE := Failure("before-tool hook returned non-JSON-safe arguments", "invalid_arguments")
  const NOT_APPROVED := Failure("Operation was not approved.", "permission_denied")
  const UNAVAILABLE := Failure("Tool runtime catalog entry is unavailable.", "tool_unavailable")

  function Blocked(reason: string): Failure {
    Failure(if reason == "" then "Tool call blocked by extension." else reason, "extension_blocked")
  }

  function Denied(error: string): Failure {
    Failure(if error == "" then "Permission policy denied this operation." else error, "permission_denied")
  }

  function Argument(action: ToolAction, name: string): string {
    if name in action.arguments then action.arguments[name] else ""
  }

  function IndexText(index: Option<int>): string {
    match index
    case None => ""
    case Some(i) => if i < 0 then "-" + Decimal(-i) else Decimal(i)
  }

  function SelectedMode(action: ToolAction, response: Resolution): string {
    var selected := Strip(response.selectedMode);
    if selected == "" && action.name == "propose_mode_switch" then Strip(Argument(action, "target_mode")) else selected
  }

  /** The observation of an interactive action, once it is answered. */
  function Answered(action: ToolAction, response: Resolution, mode: string): Observation {
    var selected := SelectedMode(action, response);
    var question := if action.name == "ask_user" then Strip(Argument(action, "question")) else Argument(action, "reason");
    Observation(action.name, true, None,
                Fields("", selected != "" && selected != mode, selected,
                       map["question" := question, "answer" := Strip(response.answer),
                           "selected_index" := IndexText(response.selectedIndex),
                           "selected_option_text" := response.selectedOptionText]))
  }

  function WriteFailure(world: World, action: ToolAction, mode: string): Option<Failure> {
    if action.name in ["edit_file", "write_file"] then world.writeFailure(action, mode) else None
  }

  /** Only files that tools edit or write have a path that is looked at. */
  predicate MayWrite(world: World, action: ToolAction, mode: string) {
    action.name == "edit_file" || action.name == "write_file" ==> world.writeFailure(action, mode).None?
  }

  lemma WriteChecked(world: World, action: ToolAction, mode: string)
    ensures WriteFailure(world, action, mode).None? <==> MayWrite(world, action, mode)
  {
  }

  // ------------------------------------------------------------- one action

  /** `Waiting` carries the prompt and what a resumed preparation needs to know. */
  datatype Outcome =
    | Ready(invocation: Invocation)
    | Done(immediate: Immediate)
    | Waiting(kind: InteractionKind, effective: ToolAction, category: string)

  datatype Gate = Stopped(immediate: Immediate) | Open(effective: ToolAction)

  /** An item of the batch as a preparation makes it: it stands for the action at its index
      and survives being stored. */
  predicate InvocationFits(batch: PrepareBatch, x: Invocation) {
    && x.sourceIndex < |batch.actions|
    && x.id == ToolOp(batch.message, x.sourceIndex)
    && x.original == batch.actions[x.sourceIndex]
    && x.category != ""
  }

  predicate ImmediateFits(batch: PrepareBatch, x: Immediate) {
    && x.sourceIndex < |batch.actions|
    && x.original == batch.actions[x.sourceIndex]
    && x.observation.toolName == x.effective.name
  }

  /** The outcome belongs to action `i`, and keeps its tool. */
  predicate Fits(batch: PrepareBatch, i: nat, outcome: Outcome)
    requires i < |batch.actions|
  {
    match outcome
    case Ready(x) => x.sourceIndex == i && InvocationFits(batch, x)
    case Done(x) => x.sourceIndex == i && ImmediateFits(batch, x)
    case Waiting(_, effective, _) => effective.name == batch.actions[i].name
  }

  function Rejected(i: nat, original: ToolAction, effective: ToolAction, failure: Failure): Immediate {
    Immediate(i, original, effective, Failed(original.name, failure))
  }

  /** What is checked before the permission policy is asked. */
  function Enter(world: World, batch: PrepareBatch, i: nat): (gate: Gate)
    requires i < |batch.actions|
    ensures gate.Open? ==> gate.effective.name == batch.actions[i].name && !batch.truncated
    ensures gate.Stopped? ==> Fits(batch, i, Done(gate.immediate))
  {
    var action := batch.actions[i];
    if batch.truncated then Stopped(Rejected(i, action, action, TRUNCATED))
    else if !world.allowed(action.name, batch.mode, batch.workflow) && !Interactive(action.name) then
      Stopped(Rejected(i, action, action, MODE_BLOCKED))
    else
      match world.hook(action, batch.mode, batch.workflow)
      case Block(reason) => Stopped(Rejected(i, action, action, Blocked(reason)))
      case Unsafe => Stopped(Rejected(i, action, action, UNSAFE))
      case Proceed => Open(action)
      case Rewrite(arguments) => Open(action.(arguments := arguments))
  }

  function Presentation(entry: CatalogEntry, name: string): map<string, string> {
    map["tool_label" := Or(entry.title, name),
        "progress_renderer_key" := Or(entry.progressKey, "default"),
        "result_renderer_key" := Or(entry.resultKey, "default"),
        "supports_diff_preview" := if entry.diffPreview then "true" else "false"]
  }

  function Or(text: string, fallback: string): string {
    if text == "" then fallback else text
  }

  function ReadyInvocation(world: World, batch: PrepareBatch, i: nat, effective: ToolAction, category: string): (outcome: Outcome)
    requires i < |batch.actions|
    ensures !outcome.Waiting?
    ensures effective.name == batch.actions[i].name ==> Fits(batch, i, outcome)
  {
    var original := batch.actions[i];
    match world.catalog(effective.name)
    case None => Done(Rejected(i, original, effective, UNAVAILABLE))
    case Some(entry) =>
      Ready(Invocation(ToolOp(batch.message, i), original.callId, i, original, effective,
                       Or(category, Or(entry.category, "other")), entry.readOnly, entry.concurrencySafe,
                       Presentation(entry, effective.name), entry.sourceType, entry.sourceId, false,
                       batch.mode, batch.workflow))
  }

  /** What follows once the action is permitted. */
  function Permitted(world: World, batch: PrepareBatch, i: nat, effective: ToolAction, category: string,
                     response: Option<Resolution>): (outcome: Outcome)
    requires i < |batch.actions|
    ensures effective.name == batch.actions[i].name ==> Fits(batch, i, outcome)
  {
    var original := batch.actions[i];
    match WriteFailure(world, effective, batch.mode)
    case Some(failure) => Done(Immediate(i, original, effective, Failed(effective.name, failure)))
    case None =>
      if Interactive(effective.name) then
        match response
        case None => Waiting(UserInput, effective, "")
        case Some(answer) => Done(Immediate(i, original, effective, Answered(effective, answer, batch.mode)))
      else ReadyInvocation(world, batch, i, effective, category)
  }

  function PrepareAction(world: World, batch: PrepareBatch, i: nat, handlers: Handlers): (outcome: Outcome)
    requires i < |batch.actions|
    ensures Fits(batch, i, outcome)
    ensures outcome.Waiting? ==> !batch.truncated
  {
    match Enter(world, batch, i)
    case Stopped(immediate) => Done(immediate)
    case Open(effective) => Decide(world, batch, i, effective, handlers)
  }

  function Decide(world: World, batch: PrepareBatch, i: nat, effective: ToolAction, handlers: Handlers): (outcome: Outcome)
    requires i < |batch.actions|
    ensures effective.name == batch.actions[i].name ==> Fits(batch, i, outcome)
  {
    var original := batch.actions[i];
    match Evaluate(world.policy, effective)
    case Deny(error, _) => Done(Rejected(i, original, effective, Denied(error)))
    case Allow(category) => Permitted(world, batch, i, effective, category, handlers.respond(i))
    case Ask(requested, category) =>
      match handlers.permit(i)
      case None => Waiting(Permission, effective, requested)
      case Some(false) => Done(Rejected(i, original, effective, NOT_APPROVED))
      case Some(true) => Permitted(world, batch, i, effective, category, handlers.respond(i))
  }

  /** The action at which the batch was suspended, now that its answer is known. */
  function ResumeAction(world: World, batch: PrepareBatch, i: nat): (outcome: Outcome)
    requires i < |batch.actions| && batch.resume.Some?
    ensures !outcome.Waiting?
    ensures batch.resume.value.effective.name == batch.actions[i].name ==> Fits(batch, i, outcome)
  {
    var original, resume := batch.actions[i], batch.resume.value;
    match resume.kind
    case Permission =>
      if !resume.resolution.approved then Done(Rejected(i, original, resume.effective, NOT_APPROVED))
      else
        (match WriteFailure(world, resume.effective, batch.mode)
         case Some(failure) =>
           Done(Immediate(i, original, resume.effective, Failed(resume.effective.name, failure)))
         case None => ReadyInvocation(world, batch, i, resume.effective, resume.category))
    case UserInput =>
      Done(Immediate(i, original, resume.effective, Answered(resume.effective, resume.resolution, batch.mode)))
  }

  function OutcomeAt(world: World, batch: PrepareBatch, i: nat, handlers: Handlers): Outcome
    requires i < |batch.actions|
  {
    if i == batch.startIndex && batch.resume.Some? then ResumeAction(world, batch, i)
    else PrepareAction(world, batch, i, handlers)
  }

  // ------------------------------------------------------------- the batch

  /** How far a preparation has come. */
  datatype Progress = Progress(prepared: seq<Invocation>, immediate: seq<Immediate>, events: seq<Event>)

  datatype Preparation =
    | Finished(progress: Progress)
    | Suspended(progress: Progress, index: nat, kind: InteractionKind, effective: ToolAction, category: string)

  /** An immediate result is recorded at once; a refusal by the user or the policy is noted. */
  function ImmediateEvents(immediate: Immediate): (events: seq<Event>)
    ensures Neutral(events)
  {
    (if immediate.observation.ErrorKind() == "permission_denied" then [StateEvent("interaction")] else [])
    + [ToolResult(immediate.original.callId, immediate.original.name, immediate.observation)]
  }

  function Add(progress: Progress, outcome: Outcome): Progress
    requires !outcome.Waiting?
  {
    match outcome
    case Ready(invocation) => progress.(prepared := progress.prepared + [invocation])
    case Done(immediate) =>
      progress.(immediate := progress.immediate + [immediate], events := progress.events + ImmediateEvents(immediate))
  }

  /** The batch from action `i` on. */
  function PrepareFrom(world: World, batch: PrepareBatch, handlers: Handlers, i: nat, progress: Progress): Preparation
    decreases |batch.actions| - i
  {
    if i >= |batch.actions| then Finished(progress)
    else
      match OutcomeAt(world, batch, i, handlers)
      case Waiting(kind, effective, category) => Suspended(progress, i, kind, effective, category)
      case other => PrepareFrom(world, batch, handlers, i + 1, Add(progress, other))
  }

  function Prefix(batch: PrepareBatch): Progress {
    Progress(batch.preparedPrefix, batch.immediatePrefix, [])
  }

  function PrepareAll(world: World, batch: PrepareBatch, handlers: Handlers): Preparation {
    PrepareFrom(world, batch, handlers, batch.startIndex, Prefix(batch))
  }

  /** The index loop of the service. */
  method Prepare(world: World, batch: PrepareBatch, handlers: Handlers) returns (preparation: Preparation)
    ensures preparation == PrepareAll(world, batch, handlers)
  {
    var prepared, immediate, events := batch.preparedPrefix, batch.immediatePrefix, [];
    var i := batch.startIndex;
    hide OutcomeAt;
    while i < |batch.actions|
      invariant batch.startIndex <= i
      invariant PrepareAll(world, batch, handlers)
             == PrepareFrom(world, batch, handlers, i, Progress(prepared, immediate, events))
    {
      var outcome := OutcomeAt(world, batch, i, handlers);
      match outcome {
        case Waiting(kind, effective, category) =>
          return Suspended(Progress(prepared, immediate, events), i, kind, effective, category);
        case Ready(invocation) =>
          prepared := prepared + [invocation];
        case Done(result) =>
          immediate := immediate + [result];
          events := events + ImmediateEvents(result);
      }
      i := i + 1;
    }
    return Finished(Progress(prepared, immediate, events));
  }

  /** The id of a new interaction: the one that the request's details name, or a random one. */
  function InteractionId(details: string, random: string): (id: string)
    ensures NonBlank(random) ==> NonBlank(id)
  {
    if Strip(details) != "" then Strip(details) else "pi-" + random
  }

  /** The result handed to the loop; a suspension asks its question last. */
  function Result(effect: EffectId, preparation: Preparation, interaction: string): EffectResult {
    match preparation
    case Finished(progress) => ToolsPrepared(effect, progress.prepared, progress.immediate, progress.events, [])
    case Suspended(progress, _, kind, effective, _) =>
      InteractionSuspended(effect, Pending(interaction, kind, effective.name),
                           progress.events + [InteractionAsked(interaction)], [])
  }

  // ------------------------------------------------ one slot for each action

  function Below(n: nat): (indices: set<nat>)
    ensures forall k: nat :: k in indices <==> k < n
  {
    if n == 0 then {} else Below(n - 1) + {n - 1}
  }

  function InvocationIndices(prepared: seq<Invocation>): set<nat> {
    set x | x in prepared :: x.sourceIndex
  }

  function ImmediateIndices(immediate: seq<Immediate>): set<nat> {
    set x | x in immediate :: x.sourceIndex
  }

  /** The actions before `n` have exactly one slot each: lists in increasing order, together
      covering each index once, and no more entries than indices. */
  ghost predicate Slotted(batch: PrepareBatch, n: nat, progress: Progress) {
    && |progress.prepared| + |progress.immediate| == n
    && InvocationIndices(progress.prepared) + ImmediateIndices(progress.immediate) == Below(n)
    && InvocationIndices(progress.prepared) !! ImmediateIndices(progress.immediate)
    && (forall a, b | 0 <= a < b < |progress.prepared| :: progress.prepared[a].sourceIndex < progress.prepared[b].sourceIndex)
    && (forall a, b | 0 <= a < b < |progress.immediate| :: progress.immediate[a].sourceIndex < progress.immediate[b].sourceIndex)
    && (forall x | x in progress.prepared :: InvocationFits(batch, x))
    && (forall x | x in progress.immediate :: ImmediateFits(batch, x))
    && Neutral(progress.events)
  }

  /** A batch as the kernel or a checkpoint makes it. */
  ghost predicate Sound(batch: PrepareBatch) {
    && batch.startIndex <= |batch.actions|
    && Slotted(batch, batch.startIndex, Prefix(batch))
    && (batch.resume.Some? ==>
          && !batch.truncated && batch.startIndex < |batch.actions|
          && batch.resume.value.effective.name == batch.actions[batch.startIndex].name)
  }

  /** A batch as the kernel hands it out the first time. */
  lemma NewBatchIsSound(batch: PrepareBatch)
    requires batch.startIndex == 0 && batch.preparedPrefix == [] && batch.immediatePrefix == [] && batch.resume.None?
    ensures Sound(batch)
  {
  }

  lemma OutcomeFits(world: World, batch: PrepareBatch, i: nat, handlers: Handlers)
    requires i < |batch.actions|
    requires i == batch.startIndex && batch.resume.Some? ==> batch.resume.value.effective.name == batch.actions[i].name
    ensures Fits(batch, i, OutcomeAt(world, batch, i, handlers))
    ensures OutcomeAt(world, batch, i, handlers).Waiting? ==> !batch.truncated
  {
  }

  lemma NeutralMore(events: seq<Event>, more: seq<Event>)
    requires Neutral(events) && Neutral(more)
    ensures Neutral(events + more)
  {
  }

  lemma AddReady(batch: PrepareBatch, n: nat, progress: Progress, x: Invocation)
    requires Slotted(batch, n, progress) && x.sourceIndex == n && InvocationFits(batch, x)
    ensures Slotted(batch, n + 1, Add(progress, Ready(x)))
  {
    InvocationSlotsBelow(progress, n);
    InvocationIndicesAdd(progress.prepared, x);
    hide InvocationIndices, ImmediateIndices, InvocationFits, ImmediateFits, Neutral, ImmediateEvents;
  }

  lemma AddDone(batch: PrepareBatch, n: nat, progress: Progress, x: Immediate)
    requires Slotted(batch, n, progress) && x.sourceIndex == n && ImmediateFits(batch, x)
    ensures Slotted(batch, n + 1, Add(progress, Done(x)))
  {
    InvocationSlotsBelow(progress, n);
    ImmediateIndicesAdd(progress.immediate, x);
    NeutralMore(progress.events, ImmediateEvents(x));
    hide InvocationIndices, ImmediateIndices, InvocationFits, ImmediateFits, ImmediateEvents, Neutral;
  }

  lemma InvocationIndicesAdd(prepared: seq<Invocation>, x: Invocation)
    ensures InvocationIndices(prepared + [x]) == InvocationIndices(prepared) + {x.sourceIndex}
  {
    assert x in prepared + [x];
    assert forall y | y in prepared :: y in prepared + [x];
  }

  lemma ImmediateIndicesAdd(immediate: seq<Immediate>, x: Immediate)
    ensures ImmediateIndices(immediate + [x]) == ImmediateIndices(immediate) + {x.sourceIndex}
  {
    assert x in immediate + [x];
    assert forall y | y in immediate :: y in immediate + [x];
  }

  lemma InvocationSlotsBelow(progress: Progress, n: nat)
    requires InvocationIndices(progress.prepared) + ImmediateIndices(progress.immediate) == Below(n)
    ensures forall x | x in progress.prepared :: x.sourceIndex < n
    ensures forall x | x in progress.immediate :: x.sourceIndex < n
  {
    forall x | x in progress.prepared ensures x.sourceIndex < n {
      assert x.sourceIndex in InvocationIndices(progress.prepared);
    }
    forall x | x in progress.immediate ensures x.sourceIndex < n {
      assert x.sourceIndex in ImmediateIndices(progress.immediate);
    }
  }

  ghost predicate ResumeFits(batch: PrepareBatch) {
    batch.resume.Some? && batch.startIndex < |batch.actions| ==>
      batch.resume.value.effective.name == batch.actions[batch.startIndex].name
  }

  /** Where a preparation stops, every action before has its slot. */
  ghost predicate Placed(batch: PrepareBatch, preparation: Preparation) {
    match preparation
    case Finished(progress) => Slotted(batch, |batch.actions|, progress)
    case Suspended(progress, index, _, effective, _) =>
      && index < |batch.actions| && Slotted(batch, index, progress)
      && effective.name == batch.actions[index].name && !batch.truncated
  }

  lemma {:induction false} PrepareFromPlaced(world: World, batch: PrepareBatch, handlers: Handlers, i: nat, progress: Progress)
    requires i <= |batch.actions| && Slotted(batch, i, progress) && ResumeFits(batch)
    ensures Placed(batch, PrepareFrom(world, batch, handlers, i, progress))
    decreases |batch.actions| - i
  {
    if i < |batch.actions| {
      OutcomeFits(world, batch, i, handlers);
      hide OutcomeAt, Slotted, ResumeFits, InvocationFits, ImmediateFits, Add;
      match OutcomeAt(world, batch, i, handlers)
      case Waiting(_, _, _) =>
      case Ready(x) =>
        AddReady(batch, i, progress, x);
        PrepareFromPlaced(world, batch, handlers, i + 1, Add(progress, Ready(x)));
      case Done(x) =>
        AddDone(batch, i, progress, x);
        PrepareFromPlaced(world, batch, handlers, i + 1, Add(progress, Done(x)));
    }
  }

  /** A preparation stops at the first action from `i` on that waits for an answer, and at no
      earlier one; a resumed action never waits again. */
  lemma {:induction false} FirstWaiting(world: World, batch: PrepareBatch, handlers: Handlers, i: nat, progress: Progress)
    requires i <= |batch.actions|
    ensures var preparation := PrepareFrom(world, batch, handlers, i, progress);
            if preparation.Finished? then
              forall k | i <= k < |batch.actions| :: !OutcomeAt(world, batch, k, handlers).Waiting?
            else
              && i <= preparation.index < |batch.actions|
              && OutcomeAt(world, batch, preparation.index, handlers)
                   == Waiting(preparation.kind, preparation.effective, preparation.category)
              && (forall k | i <= k < preparation.index :: !OutcomeAt(world, batch, k, handlers).Waiting?)
    decreases |batch.actions| - i
  {
    hide OutcomeAt;
    if i < |batch.actions| && !OutcomeAt(world, batch, i, handlers).Waiting? {
      FirstWaiting(world, batch, handlers, i + 1, Add(progress, OutcomeAt(world, batch, i, handlers)));
    }
  }

  lemma PlacedServes(batch: PrepareBatch, preparation: Preparation, effect: EffectId, interaction: string)
    requires Placed(batch, preparation) && NonBlank(interaction)
    ensures ServesPrepare(batch, Result(effect, preparation, interaction))
  {
    if preparation.Suspended? {
      assert Slotted(batch, preparation.index, preparation.progress);
      assert Neutral(preparation.progress.events + [InteractionAsked(interaction)]);
    } else {
      var prepared := preparation.progress.prepared;
      assert Slotted(batch, |batch.actions|, preparation.progress);
      forall i | 0 <= i < |prepared| ensures prepared[i].id == ToolOp(batch.message, prepared[i].sourceIndex) {
        assert InvocationFits(batch, prepared[i]);
      }
    }
  }

  /** Every action of the batch ends up in one slot, and what the service returns is what the
      kernel relies on. */
  lemma PrepareServes(world: World, batch: PrepareBatch, handlers: Handlers, effect: EffectId, details: string, random: string)
    requires Sound(batch) && NonBlank(random)
    ensures Placed(batch, PrepareAll(world, batch, handlers))
    ensures ServesPrepare(batch, Result(effect, PrepareAll(world, batch, handlers), InteractionId(details, random)))
  {
    hide PrepareFrom, Placed, Slotted, InteractionId, NonBlank;
    PrepareFromPlaced(world, batch, handlers, batch.startIndex, Prefix(batch));
    PlacedServes(batch, PrepareAll(world, batch, handlers), effect, InteractionId(details, random));
  }

  // ---------------------------------------------------- what may be executed

  /** The action as the hook leaves it, when nothing before the policy stops it. */
  function Hooked(world: World, batch: PrepareBatch, i: nat): Option<ToolAction>
    requires i < |batch.actions|
  {
    var action := batch.actions[i];
    if batch.truncated || (!world.allowed(action.name, batch.mode, batch.workflow) && !Interactive(action.name)) then None
    else
      match world.hook(action, batch.mode, batch.workflow)
      case Proceed => Some(action)
      case Rewrite(arguments) => Some(action.(arguments := arguments))
      case _ => None
  }

  /** An action becomes an invocation if and only if its output was complete, its mode allows
      it, no hook stops it, the policy allows it or the user has approved it, its path may be
      written, it is not interactive, and the catalog has its tool. Then it is that action,
      with the arguments of the hook and the category that was decided on. */
  lemma OnlyPermittedRun(world: World, batch: PrepareBatch, i: nat, handlers: Handlers)
    requires i < |batch.actions|
    ensures var outcome, hooked := PrepareAction(world, batch, i, handlers), Hooked(world, batch, i);
            && (outcome.Ready? <==>
                  && hooked.Some?
                  && (Grants(world.policy, hooked.value)
                      || (Asks(world.policy, hooked.value) && handlers.permit(i) == Some(true)))
                  && MayWrite(world, hooked.value, batch.mode)
                  && !Interactive(hooked.value.name) && world.catalog(hooked.value.name).Some?)
            && (outcome.Ready? ==>
                  && outcome.invocation.effective == hooked.value
                  && outcome.invocation.category == CategoryOf(world.policy, hooked.value.name))
  {
    EnterIsHooked(world, batch, i);
    if Enter(world, batch, i).Open? {
      var effective := Enter(world, batch, i).effective;
      var category := CategoryOf(world.policy, effective.name);
      RequestNamesCategory(world.policy, effective);
      PolicyDecides(world.policy, effective);
      PermittedIsReady(world, batch, i, effective, category, handlers.respond(i));
    }
    hide Evaluate, Grants, Denies, CategoryOf, Interactive, WriteFailure, MayWrite, Failed, Enter, Hooked, Permitted;
  }

  /** The action was refused, and nothing was asked or done. */
  predicate RefusedAs(outcome: Outcome, name: string, kind: string) {
    outcome.Done? && !outcome.immediate.observation.success && outcome.immediate.observation.toolName == name
    && outcome.immediate.observation.ErrorKind() == kind
  }

  /** What the policy means for an action that comes to it: one that it denies is refused,
      whoever would answer; one that it grants is not asked about; any other waits for an
      answer, and is refused if the answer is no. */
  lemma PolicyHolds(world: World, batch: PrepareBatch, i: nat, handlers: Handlers)
    requires i < |batch.actions| && Hooked(world, batch, i).Some?
    ensures var outcome, effective := PrepareAction(world, batch, i, handlers), Hooked(world, batch, i).value;
            && (Denies(world.policy, effective) ==> RefusedAs(outcome, batch.actions[i].name, "permission_denied"))
            && (Grants(world.policy, effective) ==> !(outcome.Waiting? && outcome.kind.Permission?))
            && (Asks(world.policy, effective) ==>
                  && (handlers.permit(i).None? <==> outcome.Waiting? && outcome.kind.Permission?)
                  && (handlers.permit(i).None? ==>
                        outcome.effective == effective && outcome.category == CategoryOf(world.policy, effective.name))
                  && (handlers.permit(i) == Some(false) ==> RefusedAs(outcome, batch.actions[i].name, "permission_denied")))
  {
    EnterIsHooked(world, batch, i);
    var effective := Hooked(world, batch, i).value;
    PolicyDecides(world.policy, effective);
    RequestNamesCategory(world.policy, effective);
    hide Evaluate, Grants, Denies, CategoryOf, Interactive, WriteFailure, Enter, Hooked, ReadyInvocation, Answered;
  }

  /** What stops an action before the policy: its output was cut off, its mode does not allow
      it, or a hook blocks it or spoils its arguments. */
  lemma StoppedBeforePolicy(world: World, batch: PrepareBatch, i: nat, handlers: Handlers)
    requires i < |batch.actions|
    ensures var action, outcome := batch.actions[i], PrepareAction(world, batch, i, handlers);
            var hook := world.hook(action, batch.mode, batch.workflow);
            var blocked := !world.allowed(action.name, batch.mode, batch.workflow) && !Interactive(action.name);
            && (Hooked(world, batch, i).None? <==> batch.truncated || blocked || hook.Block? || hook.Unsafe?)
            && (batch.truncated ==> RefusedAs(outcome, action.name, "truncated_tool_arguments"))
            && (!batch.truncated && blocked ==> RefusedAs(outcome, action.name, "mode_tool_blocked"))
            && (!batch.truncated && !blocked && hook.Block? ==> RefusedAs(outcome, action.name, "extension_blocked"))
            && (!batch.truncated && !blocked && hook.Unsafe? ==> RefusedAs(outcome, action.name, "invalid_arguments"))
  {
    hide Interactive, Decide;
  }

  lemma EnterIsHooked(world: World, batch: PrepareBatch, i: nat)
    requires i < |batch.actions|
    ensures Enter(world, batch, i).Open? <==> Hooked(world, batch, i).Some?
    ensures Enter(world, batch, i).Open? ==> Enter(world, batch, i).effective == Hooked(world, batch, i).value
  {
    hide Interactive, Failed;
  }

  lemma PermittedIsReady(world: World, batch: PrepareBatch, i: nat, effective: ToolAction, category: string,
                         response: Option<Resolution>)
    requires i < |batch.actions| && category != ""
    ensures var outcome := Permitted(world, batch, i, effective, category, response);
            && (outcome.Ready? <==>
                  && MayWrite(world, effective, batch.mode)
                  && !Interactive(effective.name) && world.catalog(effective.name).Some?)
            && (outcome.Ready? ==> outcome.invocation.effective == effective && outcome.invocation.category == category)
  {
    WriteChecked(world, effective, batch.mode);
    hide Interactive, WriteFailure, MayWrite, Presentation, Failed;
  }

  /** A resumed action becomes an invocation only after a permission that was granted. */
  lemma OnlyApprovedResume(world: World, batch: PrepareBatch, i: nat)
    requires i < |batch.actions| && batch.resume.Some?
    ensures var resume, outcome := batch.resume.value, ResumeAction(world, batch, i);
            && (outcome.Ready? <==>
                  && resume.kind.Permission? && resume.resolution.approved
                  && MayWrite(world, resume.effective, batch.mode) && world.catalog(resume.effective.name).Some?)
            && (outcome.Ready? ==>
                  && outcome.invocation.effective == resume.effective
                  && (resume.category != "" ==> outcome.invocation.category == resume.category))
  {
    WriteChecked(world, batch.resume.value.effective, batch.mode);
    hide WriteFailure, Presentation, Failed;
  }
}
