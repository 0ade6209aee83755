/** The ids that the agent core gives to operations, effects and messages, and the text
    each of them is written as. Operations are told apart by that text alone, so the model
    of the kernel may work on the ids only because writing them is injective. */
module OperationIds {
  import opened Text

  datatype EffectKind = Context | CompactContext | Provider | ToolPrepare | Tools

  datatype EffectId = EffectId(kind: EffectKind, turn: string, step: nat, attempt: nat)

  datatype MessageId = MessageId(turn: string, step: nat, attempt: nat)

  datatype TransitionReason =
    | Completed | GuardStop | Aborted | MaxTurns | PermissionWait | UserInputWait | CompactRetry

  /** Every operation that the core writes into a session log. The kernel makes the ids of
      steps, effects, tools and savepoints. The lifecycle journal wraps a run in its turn,
      writes savepoints of its own, whose `place` is the turn and the step they were made in,
      and a mode switch without a run makes a step with a random name. The `path` of a
      workflow patch is the step or the session, and the call. */
  datatype OperationId =
    | TurnOp(turnId: string)
    | StepOp(turn: string, step: nat)
    | ModeStepOp(name: string)
    | EffectOp(effect: EffectId)
    | SnapshotOp(context: EffectId)
    | ToolOp(message: MessageId, sourceIndex: nat)
    | PendingOp(interaction: string)
    | SavepointOp(savedTurn: string, savedStep: nat, reason: TransitionReason)
    | LifecycleSavepointOp(place: string, index: nat)
    | PatchOp(path: string)

  function TurnText(turn: string): string {
    if turn == "" then "turn" else turn
  }

  /** A savepoint names the session in place of a missing turn. */
  function SavedText(turn: string): string {
    if turn == "" then "session" else turn
  }

  function KindText(kind: EffectKind): string {
    match kind
    case Context => "context"
    case CompactContext => "context-compact"
    case Provider => "provider"
    case ToolPrepare => "tool-prepare"
    case Tools => "tools"
  }

  function ReasonText(reason: TransitionReason): string {
    match reason
    case Completed => "completed"
    case GuardStop => "guard_stop"
    case Aborted => "aborted"
    case MaxTurns => "max_turns"
    case PermissionWait => "permission_wait"
    case UserInputWait => "user_input_wait"
    case CompactRetry => "compact_retry"
  }

  function StepText(turn: string, step: nat): string {
    "step-" + (turn + (['-'] + Decimal(step)))
  }

  function EffectTail(id: EffectId): string {
    (id.turn + ([':'] + Decimal(id.step))) + ([':'] + Decimal(id.attempt))
  }

  function EffectText(id: EffectId): string {
    KindText(id.kind) + ([':'] + EffectTail(id))
  }

  function MessageText(id: MessageId): string {
    ("m-assistant-" + (id.turn + ("-step-" + id.turn) + (['-'] + Decimal(id.step)))) + (['-'] + Decimal(id.attempt))
  }

  /** The word before the first colon. */
  function Tag(id: OperationId): string {
    match id
    case TurnOp(_) => "turn"
    case StepOp(_, _) => "step"
    case ModeStepOp(_) => "step"
    case EffectOp(effect) => KindText(effect.kind)
    case SnapshotOp(_) => "context_snapshot"
    case ToolOp(_, _) => "tool"
    case PendingOp(_) => "pending"
    case SavepointOp(_, _, _) => "savepoint"
    case LifecycleSavepointOp(_, _) => "savepoint"
    case PatchOp(_) => "workflow_patch"
  }

  function Rest(id: OperationId): string {
    match id
    case TurnOp(turn) => turn
    case StepOp(turn, step) => StepText(turn, step)
    case ModeStepOp(name) => "s-" + name
    case EffectOp(effect) => EffectTail(effect)
    case SnapshotOp(context) => EffectText(context)
    case ToolOp(message, sourceIndex) => MessageText(message) + ([':'] + Decimal(sourceIndex))
    case PendingOp(interaction) => interaction
    case SavepointOp(turn, step, reason) => SavedPlace(turn, step) + ([':'] + ReasonText(reason))
    case LifecycleSavepointOp(place, index) => place + ([':'] + Decimal(index))
    case PatchOp(path) => path
  }

  /** The turn and the step of a savepoint that the kernel makes. */
  function SavedPlace(turn: string, step: nat): string {
    (SavedText(turn) + (":step-" + TurnText(turn))) + (['-'] + Decimal(step))
  }

  /** The operation id as it is stored in the session log. */
  function Render(id: OperationId): string {
    Tag(id) + ([':'] + Rest(id))
  }

  lemma DecimalHasNo(n: nat, c: char)
    requires !IsDigit(c)
    ensures c !in Decimal(n)
  {
  }

  lemma {:induction false} SplitNumber(a: string, m: nat, b: string, n: nat, sep: char)
    requires !IsDigit(sep)
    requires a + ([sep] + Decimal(m)) == b + ([sep] + Decimal(n))
    ensures a == b && m == n
  {
    DecimalHasNo(m, sep);
    DecimalHasNo(n, sep);
    SplitAtLast(a, b, sep, Decimal(m), Decimal(n));
    DecimalInjective(m, n);
  }

  lemma StepTextInjective(turn: string, step: nat, turn': string, step': nat)
    requires StepText(turn, step) == StepText(turn', step')
    ensures turn == turn' && step == step'
  {
    SameLengthSplit("step-", "step-", turn + (['-'] + Decimal(step)), turn' + (['-'] + Decimal(step')));
    SplitNumber(turn, step, turn', step', '-');
  }

  lemma EffectTailInjective(a: EffectId, b: EffectId)
    requires EffectTail(a) == EffectTail(b)
    ensures a.turn == b.turn && a.step == b.step && a.attempt == b.attempt
  {
    SplitNumber(a.turn + ([':'] + Decimal(a.step)), a.attempt, b.turn + ([':'] + Decimal(b.step)), b.attempt, ':');
    SplitNumber(a.turn, a.step, b.turn, b.step, ':');
  }

  lemma KindTextInjective(a: EffectKind, b: EffectKind)
    ensures ':' !in KindText(a)
    ensures KindText(a) == KindText(b) ==> a == b
  {
    KindLengths(a);
    KindLengths(b);
  }

  lemma KindLengths(a: EffectKind)
    ensures ':' !in KindText(a)
    ensures |KindText(a)| == match a { case Context => 7 case CompactContext => 15 case Provider => 8 case ToolPrepare => 12 case Tools => 5 }
  {
  }

  /** An effect result is matched to its effect by this text. */
  lemma EffectTextInjective(a: EffectId, b: EffectId)
    requires EffectText(a) == EffectText(b)
    ensures a == b
  {
    KindTextInjective(a.kind, b.kind);
    KindTextInjective(b.kind, a.kind);
    SplitAtFirst(KindText(a.kind), KindText(b.kind), ':', EffectTail(a), EffectTail(b));
    EffectTailInjective(a, b);
  }

  lemma MessageTextInjective(a: MessageId, b: MessageId)
    requires MessageText(a) == MessageText(b)
    ensures a == b
  {
    var p := "m-assistant-";
    var x, y := a.turn + ("-step-" + a.turn), b.turn + ("-step-" + b.turn);
    SplitNumber(p + (x + (['-'] + Decimal(a.step))), a.attempt, p + (y + (['-'] + Decimal(b.step))), b.attempt, '-');
    SameLengthSplit(p, p, x + (['-'] + Decimal(a.step)), y + (['-'] + Decimal(b.step)));
    SplitNumber(x, a.step, y, b.step, '-');
    SplitRepeated(a.turn, b.turn, "-step-");
  }

  lemma ReasonTextInjective(a: TransitionReason, b: TransitionReason)
    ensures ':' !in ReasonText(a)
    ensures ReasonText(a) == ReasonText(b) ==> a == b
  {
    ReasonLengths(a);
    ReasonLengths(b);
    assert ReasonText(Completed)[0] == 'c' && ReasonText(MaxTurns)[0] == 'm';
  }

  lemma ReasonLengths(a: TransitionReason)
    ensures ':' !in ReasonText(a)
    ensures |ReasonText(a)| == match a {
      case Completed => 9 case GuardStop => 10 case Aborted => 7 case MaxTurns => 9
      case PermissionWait => 15 case UserInputWait => 15 case CompactRetry => 13 }
    ensures a.PermissionWait? ==> ReasonText(a)[0] == 'p'
    ensures a.UserInputWait? ==> ReasonText(a)[0] == 'u'
  {
  }

  /** A number for each family of ids; the text before the first colon decides it. */
  function Family(id: OperationId): nat {
    match id
    case StepOp(_, _) => 0
    case ModeStepOp(_) => 0
    case EffectOp(effect) =>
      (match effect.kind
       case Context => 1
       case CompactContext => 2
       case Provider => 3
       case ToolPrepare => 4
       case Tools => 5)
    case SnapshotOp(_) => 6
    case ToolOp(_, _) => 7
    case PendingOp(_) => 8
    case SavepointOp(_, _, _) => 9
    case LifecycleSavepointOp(_, _) => 9
    case PatchOp(_) => 10
    case TurnOp(_) => 11
  }

  lemma TagDecidesFamily(a: OperationId, b: OperationId)
    ensures ':' !in Tag(a)
    ensures Tag(a) == Tag(b) ==> Family(a) == Family(b)
  {
    TagShape(a);
    TagShape(b);
  }

  /** Length and first two letters already tell the twelve families apart. */
  lemma TagShape(a: OperationId)
    ensures ':' !in Tag(a)
    ensures var (size, first, second) := [(4, 's', 't'), (7, 'c', 'o'), (15, 'c', 'o'), (8, 'p', 'r'), (12, 't', 'o'),
                                          (5, 't', 'o'), (16, 'c', 'o'), (4, 't', 'o'), (7, 'p', 'e'), (9, 's', 'a'),
                                          (14, 'w', 'o'), (4, 't', 'u')][Family(a)];
            |Tag(a)| == size && Tag(a)[0] == first && Tag(a)[1] == second
  {
  }

  /** Distinct operations have distinct texts. */
  lemma RenderInjective(a: OperationId, b: OperationId)
    requires Render(a) == Render(b)
    ensures a == b
  {
    TagDecidesFamily(a, b);
    TagDecidesFamily(b, a);
    SplitAtFirst(Tag(a), Tag(b), ':', Rest(a), Rest(b));
    RestInjective(a, b);
  }

  lemma RestInjective(a: OperationId, b: OperationId)
    requires Family(a) == Family(b) && Rest(a) == Rest(b)
    ensures a == b
  {
    hide StepText, EffectTail, EffectText, MessageText;
    match a
    case TurnOp(_) =>
    case StepOp(_, _) => StepRestInjective(a, b);
    case ModeStepOp(_) => StepRestInjective(a, b);
    case EffectOp(effect) => EffectTailInjective(effect, b.effect);
    case SnapshotOp(context) => EffectTextInjective(context, b.context);
    case ToolOp(message, i) =>
      SplitNumber(MessageText(message), i, MessageText(b.message), b.sourceIndex, ':');
      MessageTextInjective(message, b.message);
    case PendingOp(_) =>
    case SavepointOp(_, _, _) => SavepointRestInjective(a, b);
    case LifecycleSavepointOp(_, _) => SavepointRestInjective(a, b);
    case PatchOp(_) =>
  }

  /** The kernel's steps are named "step-", those of a mode switch "s-". */
  lemma StepRestInjective(a: OperationId, b: OperationId)
    requires Family(a) == Family(b) == 0 && Rest(a) == Rest(b)
    ensures a == b
  {
    StepSecond(a);
    StepSecond(b);
    if a.StepOp? && b.StepOp? {
      StepTextInjective(a.turn, a.step, b.turn, b.step);
    } else if a.ModeStepOp? && b.ModeStepOp? {
      SameLengthSplit("s-", "s-", a.name, b.name);
    }
  }

  lemma StepSecond(a: OperationId)
    requires Family(a) == 0
    ensures |Rest(a)| >= 2 && Rest(a)[1] == if a.StepOp? then 't' else '-'
  {
  }

  /** The kernel's savepoints end in a reason, the lifecycle's in a number. */
  lemma SavepointRestInjective(a: OperationId, b: OperationId)
    requires Family(a) == Family(b) == 9 && Rest(a) == Rest(b)
    ensures a == b
  {
    if a.SavepointOp? && b.SavepointOp? {
      SavepointInjective(a, b);
    } else if a.LifecycleSavepointOp? && b.LifecycleSavepointOp? {
      SplitNumber(a.place, a.index, b.place, b.index, ':');
    } else if a.SavepointOp? {
      ReasonIsNoNumber(SavedPlace(a.savedTurn, a.savedStep), a.reason, b.place, b.index);
    } else {
      ReasonIsNoNumber(SavedPlace(b.savedTurn, b.savedStep), b.reason, a.place, a.index);
    }
  }

  lemma ReasonIsNoNumber(x: string, reason: TransitionReason, y: string, n: nat)
    ensures x + ([':'] + ReasonText(reason)) != y + ([':'] + Decimal(n))
  {
    ReasonTextInjective(reason, reason);
    DecimalHasNo(n, ':');
    if x + ([':'] + ReasonText(reason)) == y + ([':'] + Decimal(n)) {
      SplitAtLast(x, y, ':', ReasonText(reason), Decimal(n));
      assert IsDigit(Decimal(n)[0]);
      ReasonStart(reason);
    }
  }

  lemma ReasonStart(reason: TransitionReason)
    ensures !IsDigit(ReasonText(reason)[0])
  {
  }

  lemma SavepointInjective(a: OperationId, b: OperationId)
    requires a.SavepointOp? && b.SavepointOp? && Rest(a) == Rest(b)
    ensures a == b
  {
    ReasonTextInjective(a.reason, b.reason);
    ReasonTextInjective(b.reason, a.reason);
    SplitAtLast(SavedPlace(a.savedTurn, a.savedStep), SavedPlace(b.savedTurn, b.savedStep), ':',
                ReasonText(a.reason), ReasonText(b.reason));
    SavedPlaceInjective(a.savedTurn, a.savedStep, b.savedTurn, b.savedStep);
  }

  /** A turn stands in its savepoints twice with six letters between; the name that stands
      for a missing turn is of odd length, so no turn takes it. */
  lemma SavedPlaceInjective(turn: string, step: nat, turn': string, step': nat)
    requires SavedPlace(turn, step) == SavedPlace(turn', step')
    ensures turn == turn' && step == step'
  {
    var x, y := SavedText(turn) + (":step-" + TurnText(turn)), SavedText(turn') + (":step-" + TurnText(turn'));
    SplitNumber(x, step, y, step', '-');
    SavedLength(turn);
    SavedLength(turn');
    if turn != "" && turn' != "" {
      SplitRepeated(turn, turn', ":step-");
    }
  }

  lemma SavedLength(turn: string)
    ensures |SavedText(turn) + (":step-" + TurnText(turn))| == if turn == "" then 17 else 2 * |turn| + 6
  {
  }

  predicate NonBlank(s: string) {
    s != "" && Stripped(s)
  }

  /** An id that the reducer's stripping leaves alone: every one but a patch id, whose call
      id may end in white space, and an id made of a free name with white space around it. */
  predicate Clean(id: OperationId) {
    match id
    case TurnOp(turn) => NonBlank(turn)
    case ModeStepOp(name) => NonBlank(name)
    case PendingOp(interaction) => NonBlank(interaction)
    case PatchOp(_) => false
    case _ => true
  }

  /** The ids that the core makes: turns and interactions are named without white space
      around them. Only the call id of a patch is free. */
  predicate Keyed(id: OperationId) {
    id.PatchOp? || Clean(id)
  }

  lemma LastOf(a: string, b: string)
    requires b != ""
    ensures (a + b)[|a + b| - 1] == b[|b| - 1]
  {
  }

  predicate EndsInBlack(s: string) {
    s != "" && !IsSpace(s[|s| - 1])
  }

  lemma EndOf(a: string, b: string)
    requires EndsInBlack(b)
    ensures EndsInBlack(a + b)
  {
    LastOf(a, b);
  }

  lemma RestEnd(id: OperationId)
    requires Clean(id)
    ensures EndsInBlack(Rest(id))
  {
    hide StepText, EffectTail, MessageText, EndsInBlack;
    match id
    case TurnOp(turn) => NonBlankEnd(turn);
    case StepOp(turn, step) => StepTextEnd(turn, step);
    case ModeStepOp(name) =>
      NonBlankEnd(name);
      EndOf("s-", name);
    case EffectOp(effect) => EffectTailEnd(effect);
    case SnapshotOp(context) =>
      EffectTailEnd(context);
      EndOf([':'], EffectTail(context));
      EndOf(KindText(context.kind), [':'] + EffectTail(context));
    case ToolOp(message, i) => NumberEnd(MessageText(message), i);
    case PendingOp(interaction) => NonBlankEnd(interaction);
    case SavepointOp(turn, step, reason) =>
      ReasonEnd(reason);
      EndOf([':'], ReasonText(reason));
      EndOf(SavedPlace(turn, step), [':'] + ReasonText(reason));
    case LifecycleSavepointOp(place, index) => NumberEnd(place, index);
  }

  lemma NonBlankEnd(s: string)
    requires NonBlank(s)
    ensures EndsInBlack(s)
  {
  }

  lemma NumberEnd(a: string, n: nat)
    ensures EndsInBlack(a + ([':'] + Decimal(n)))
  {
    EndOf([':'], Decimal(n));
    EndOf(a, [':'] + Decimal(n));
  }

  lemma ReasonEnd(reason: TransitionReason)
    ensures EndsInBlack(ReasonText(reason))
  {
  }

  lemma StepTextEnd(turn: string, step: nat)
    ensures EndsInBlack(StepText(turn, step))
  {
    EndOf(['-'], Decimal(step));
    EndOf(turn, ['-'] + Decimal(step));
    EndOf("step-", turn + (['-'] + Decimal(step)));
  }

  lemma EffectTailEnd(id: EffectId)
    ensures EndsInBlack(EffectTail(id))
  {
    EndOf([':'], Decimal(id.attempt));
    EndOf(id.turn + ([':'] + Decimal(id.step)), [':'] + Decimal(id.attempt));
  }

  /** The key under which the reducer files an operation. */
  function LogKey(id: OperationId): string {
    Strip(Render(id))
  }

  lemma CleanKey(id: OperationId)
    requires Clean(id)
    ensures LogKey(id) == Render(id) != ""
  {
    TagShape(id);
    RestEnd(id);
    EndOf([':'], Rest(id));
    EndOf(Tag(id), [':'] + Rest(id));
    assert Render(id)[0] == Tag(id)[0];
  }

  /** Stripping a patch id leaves its tag, so it never takes another operation's key. */
  lemma PatchKey(id: OperationId)
    requires id.PatchOp?
    ensures ':' !in Tag(id) && Tag(id) + [':'] <= LogKey(id)
  {
    var tag := Tag(id);
    TagShape(id);
    assert tag[0] == 'w';
    SamePrefix(tag, Rest(id));
    StripKeeps(Render(id), tag + [':']);
  }

  lemma SamePrefix(tag: string, rest: string)
    ensures tag + [':'] <= tag + ([':'] + rest)
  {
    assert tag + ([':'] + rest) == (tag + [':']) + rest;
  }

  lemma StripKeeps(s: string, prefix: string)
    requires prefix <= s && prefix != "" && !IsSpace(prefix[0]) && !IsSpace(prefix[|prefix| - 1])
    ensures prefix <= Strip(s)
  {
    assert s[0] == prefix[0];
    StripRightKeeps(s, prefix);
  }

  lemma {:induction false} StripRightKeeps(s: string, prefix: string)
    requires prefix <= s && prefix != "" && !IsSpace(prefix[|prefix| - 1])
    ensures prefix <= StripRight(s)
    decreases |s|
  {
    if s == prefix {
    } else if IsSpace(s[|s| - 1]) {
      assert prefix <= s[..|s| - 1];
      StripRightKeeps(s[..|s| - 1], prefix);
    }
  }

  /** A clean id shares its key with no other id. */
  lemma KeyInjective(a: OperationId, b: OperationId)
    requires Clean(a)
    requires LogKey(a) == LogKey(b)
    requires Keyed(b)
    ensures a == b
  {
    CleanKey(a);
    if b.PatchOp? {
      PatchKey(b);
      TagOfPrefix(a, Tag(b));
      OnlyPatchesHaveTheirTag(a, b);
    } else {
      CleanKey(b);
      RenderInjective(a, b);
    }
  }

  lemma OnlyPatchesHaveTheirTag(a: OperationId, b: OperationId)
    requires b.PatchOp? && Tag(a) == Tag(b)
    ensures a.PatchOp?
  {
    TagDecidesFamily(a, b);
  }

  lemma TagOfPrefix(a: OperationId, tag: string)
    requires ':' !in tag
    requires tag + [':'] <= Render(a)
    ensures Tag(a) == tag
  {
    var r := Render(a)[|tag| + 1..];
    assert Render(a) == tag + ([':'] + r);
    TagDecidesFamily(a, a);
    SplitAtFirst(Tag(a), tag, ':', Rest(a), r);
  }
}
