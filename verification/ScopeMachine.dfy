/** Registration scopes used by many threads at once. Every step of the machine is one region
    that the source runs under a scope's lock, or one call of a disposer; a run is any
    interleaving of such steps. */
module ScopeMachine {
  import opened Outcomes
  import opened Runs

  type Id = nat

  datatype Status = Active | Quiescing | Disposed

  datatype Scope = Scope(
    status: Status,
    registrations: seq<Id>,
    children: seq<Id>,
    parent: Option<Id>,
    operations: nat,
    quiescent: bool,
    disposing: Option<Id>,
    complete: bool)

  /** `runs` counts how often the disposer was called. */
  datatype Registration = Registration(scope: Id, active: bool, runs: nat)

  datatype Phase = Children | Own

  /** A call in progress, between two of its steps. `held` are the registrations whose
      disposers it has taken over and still has to call, the last one first. */
  datatype Call =
    | Operation(scope: Id)
    | Transaction(scope: Id, checkpoint: nat)
    | Runner(held: seq<Id>)
    | Owner(scope: Id, thread: Id, phase: Phase, left: seq<Id>, held: seq<Id>)
    | Waiter(scope: Id)
    | Detacher(scope: Id)
  {
    function Held(): seq<Id> {
      if Runner? || Owner? then held else []
    }
  }

  datatype State = State(scopes: map<Id, Scope>, registry: map<Id, Registration>, calls: map<Id, Call>)

  const START := State(map[], map[], map[])

  datatype Step =
    | CreateRoot(id: Id)
    | CreateChild(id: Id, parent: Id)
    | Register(id: Id, scope: Id)
    | DisposeOne(call: Id, id: Id)
    | Enter(call: Id, scope: Id)
    | Exit(call: Id)
    | Begin(call: Id, scope: Id)
    | Commit(call: Id)
    | Fail(call: Id)
    | Quiesce(scope: Id)
    | Dispose(call: Id, scope: Id, thread: Id)
    | NextChild(call: Id)
    | PassQuiet(call: Id)
    | RunHeld(call: Id)
    | Finish(call: Id)
    | Detach(call: Id)
    | Return(call: Id)

  // -------------------------------------------------------------------- steps

  function NewScope(parent: Option<Id>): Scope {
    Scope(Active, [], [], parent, 0, true, None, false)
  }

  function Without(ids: seq<Id>, id: Id): seq<Id> {
    if ids == [] then []
    else if ids[0] == id then ids[1..]
    else [ids[0]] + Without(ids[1..], id)
  }

  function WithoutAll(ids: seq<Id>, id: Id): seq<Id> {
    if ids == [] then []
    else (if ids[0] == id then [] else [ids[0]]) + WithoutAll(ids[1..], id)
  }

  function Drop<T>(items: map<Id, T>, id: Id): map<Id, T> {
    map k | k in items && k != id :: items[k]
  }

  function Deactivated(registry: map<Id, Registration>, ids: seq<Id>): map<Id, Registration> {
    map k | k in registry :: if k in ids then registry[k].(active := false) else registry[k]
  }

  function DoRegister(s: State, id: Id, scope: Id): Option<State> {
    if id in s.registry || scope !in s.scopes || !s.scopes[scope].status.Active? then None
    else
      var it := s.scopes[scope];
      Some(s.(scopes := s.scopes[scope := it.(registrations := it.registrations + [id])],
              registry := s.registry[id := Registration(scope, true, 0)]))
  }

  function DoCreateChild(s: State, id: Id, parent: Id): Option<State> {
    if id in s.scopes || parent !in s.scopes || !s.scopes[parent].status.Active? then None
    else
      var it := s.scopes[parent];
      Some(s.(scopes := s.scopes[parent := it.(children := it.children + [id])][id := NewScope(Some(parent))]))
  }

  /** A registration disposed on its own; a second call finds it inactive and returns. */
  function DoDisposeOne(s: State, call: Id, id: Id): Option<State> {
    if call in s.calls || id !in s.registry || s.registry[id].scope !in s.scopes then None
    else if !s.registry[id].active then Some(s)
    else
      var scope := s.registry[id].scope;
      var it := s.scopes[scope];
      Some(State(s.scopes[scope := it.(registrations := Without(it.registrations, id))],
                 s.registry[id := s.registry[id].(active := false)],
                 s.calls[call := Runner([id])]))
  }

  function DoEnter(s: State, call: Id, scope: Id): Option<State> {
    if call in s.calls || scope !in s.scopes || !s.scopes[scope].status.Active? then None
    else
      var it := s.scopes[scope];
      Some(s.(scopes := s.scopes[scope := it.(operations := it.operations + 1, quiescent := false)],
              calls := s.calls[call := Operation(scope)]))
  }

  function DoExit(s: State, call: Id): Option<State> {
    if call !in s.calls || !s.calls[call].Operation? || s.calls[call].scope !in s.scopes
       || s.scopes[s.calls[call].scope].operations == 0 then None
    else
      var scope := s.calls[call].scope;
      var it := s.scopes[scope];
      Some(s.(scopes := s.scopes[scope := it.(operations := it.operations - 1,
                                               quiescent := it.quiescent || it.operations == 1)],
              calls := Drop(s.calls, call)))
  }

  function DoBegin(s: State, call: Id, scope: Id): Option<State> {
    if call in s.calls || scope !in s.scopes || !s.scopes[scope].status.Active? then None
    else Some(s.(calls := s.calls[call := Transaction(scope, |s.scopes[scope].registrations|)]))
  }

  /** The rollback of a failed transaction takes over what lies beyond its checkpoint. */
  function DoFail(s: State, call: Id): Option<State> {
    if call !in s.calls || !s.calls[call].Transaction? || s.calls[call].scope !in s.scopes then None
    else
      var Transaction(scope, checkpoint) := s.calls[call];
      var it := s.scopes[scope];
      var cut := if checkpoint <= |it.registrations| then checkpoint else |it.registrations|;
      var taken := it.registrations[cut..];
      Some(State(s.scopes[scope := it.(registrations := it.registrations[..cut])],
                 Deactivated(s.registry, taken),
                 s.calls[call := Runner(taken)]))
  }

  function DoQuiesce(s: State, scope: Id): Option<State> {
    if scope !in s.scopes then None
    else
      var it := s.scopes[scope];
      if it.status.Active? then
        Some(s.(scopes := s.scopes[scope := it.(status := Quiescing, quiescent := it.quiescent || it.operations == 0)]))
      else Some(s)
  }

  function DoDispose(s: State, call: Id, scope: Id, thread: Id): Option<State> {
    if call in s.calls || scope !in s.scopes then None
    else
      var it := s.scopes[scope];
      if it.status.Disposed? then Some(s)
      else if it.disposing == Some(thread) then Some(s)
      else if it.disposing.Some? then Some(s.(calls := s.calls[call := Waiter(scope)]))
      else
        Some(State(s.scopes[scope := it.(status := Quiescing, disposing := Some(thread), registrations := [],
                                         quiescent := it.quiescent || it.operations == 0)],
                   Deactivated(s.registry, it.registrations),
                   s.calls[call := Owner(scope, thread, Children, it.children, it.registrations)]))
  }

  /** Disposing of `scope` returns to `thread`: the scope is disposed, by whom ever, or the
      thread is itself in the middle of disposing it. */
  predicate Passed(s: State, scope: Id, thread: Id) {
    scope in s.scopes && (s.scopes[scope].status.Disposed? || s.scopes[scope].disposing == Some(thread))
  }

  /** The owner is done with its last child; that child's own disposal is other steps. */
  function DoNextChild(s: State, call: Id): Option<State> {
    if call !in s.calls || !s.calls[call].Owner? || !s.calls[call].phase.Children? || s.calls[call].left == [] then None
    else
      var it := s.calls[call];
      if !Passed(s, it.left[|it.left| - 1], it.thread) then None
      else Some(s.(calls := s.calls[call := it.(left := it.left[..|it.left| - 1])]))
  }

  function DoPassQuiet(s: State, call: Id): Option<State> {
    if call !in s.calls || !s.calls[call].Owner? || !s.calls[call].phase.Children? || s.calls[call].left != []
       || s.calls[call].scope !in s.scopes || !s.scopes[s.calls[call].scope].quiescent then None
    else Some(s.(calls := s.calls[call := s.calls[call].(phase := Own)]))
  }

  predicate MayRun(call: Call) {
    call.Runner? || (call.Owner? && call.phase.Own?)
  }

  /** One disposer is called. */
  function DoRunHeld(s: State, call: Id): Option<State> {
    if call !in s.calls || !MayRun(s.calls[call]) || s.calls[call].held == [] then None
    else
      var it := s.calls[call];
      var id := it.held[|it.held| - 1];
      if id !in s.registry then None
      else
        Some(s.(registry := s.registry[id := s.registry[id].(runs := s.registry[id].runs + 1)],
                calls := s.calls[call := it.(held := it.held[..|it.held| - 1])]))
  }

  function DoFinish(s: State, call: Id): Option<State> {
    if call !in s.calls || !s.calls[call].Owner? || !s.calls[call].phase.Own? || s.calls[call].held != []
       || s.calls[call].scope !in s.scopes then None
    else
      var scope := s.calls[call].scope;
      Some(s.(scopes := s.scopes[scope := s.scopes[scope].(status := Disposed, disposing := None, complete := true)],
              calls := s.calls[call := Detacher(scope)]))
  }

  function DoDetach(s: State, call: Id): Option<State> {
    if call !in s.calls || !s.calls[call].Detacher? || s.calls[call].scope !in s.scopes then None
    else
      var scope := s.calls[call].scope;
      var parent := s.scopes[scope].parent;
      var after := s.(calls := Drop(s.calls, call));
      if parent.Some? && parent.value in s.scopes then
        var it := s.scopes[parent.value];
        Some(after.(scopes := s.scopes[parent.value := it.(children := WithoutAll(it.children, scope))]))
      else Some(after)
  }

  /** A call with nothing left to do returns; a waiting one only after the disposal. */
  function DoReturn(s: State, call: Id): Option<State> {
    if call !in s.calls then None
    else
      var it := s.calls[call];
      if it.Runner? && it.held == [] then Some(s.(calls := Drop(s.calls, call)))
      else if it.Waiter? && it.scope in s.scopes && s.scopes[it.scope].complete then Some(s.(calls := Drop(s.calls, call)))
      else None
  }

  function Next(s: State, step: Step): Option<State> {
    match step
    case CreateRoot(id) => if id in s.scopes then None else Some(s.(scopes := s.scopes[id := NewScope(None)]))
    case CreateChild(id, parent) => DoCreateChild(s, id, parent)
    case Register(id, scope) => DoRegister(s, id, scope)
    case DisposeOne(call, id) => DoDisposeOne(s, call, id)
    case Enter(call, scope) => DoEnter(s, call, scope)
    case Exit(call) => DoExit(s, call)
    case Begin(call, scope) => DoBegin(s, call, scope)
    case Commit(call) =>
      if call in s.calls && s.calls[call].Transaction? then Some(s.(calls := Drop(s.calls, call))) else None
    case Fail(call) => DoFail(s, call)
    case Quiesce(scope) => DoQuiesce(s, scope)
    case Dispose(call, scope, thread) => DoDispose(s, call, scope, thread)
    case NextChild(call) => DoNextChild(s, call)
    case PassQuiet(call) => DoPassQuiet(s, call)
    case RunHeld(call) => DoRunHeld(s, call)
    case Finish(call) => DoFinish(s, call)
    case Detach(call) => DoDetach(s, call)
    case Return(call) => DoReturn(s, call)
  }

  // ---------------------------------------------------------------- invariant

  ghost predicate NoDuplicates(ids: seq<Id>) {
    forall i, j | 0 <= i < j < |ids| :: ids[i] != ids[j]
  }

  /** Every scope lists exactly its active registrations, once each. */
  ghost predicate Listed(s: State) {
    && (forall id | id in s.registry :: s.registry[id].scope in s.scopes)
    && (forall scope | scope in s.scopes :: NoDuplicates(s.scopes[scope].registrations))
    && (forall scope, id | scope in s.scopes ::
          id in s.scopes[scope].registrations
          <==> id in s.registry && s.registry[id].scope == scope && s.registry[id].active)
  }

  /** The right to call a disposer is never copied: it lies with the active registration,
      with one call that holds it once, or it is used up. */
  ghost predicate Exclusive(s: State) {
    HeldUnused(s) && HeldApart(s) && AtMostOnce(s)
  }

  /** What a call holds has been taken from the lists and was not called yet. */
  ghost predicate HeldUnused(s: State) {
    forall c, id | c in s.calls && id in s.calls[c].Held() ::
      id in s.registry && !s.registry[id].active && s.registry[id].runs == 0
  }

  ghost predicate HeldApart(s: State) {
    && (forall c | c in s.calls :: NoDuplicates(s.calls[c].Held()))
    && (forall c, d, id | c in s.calls && d in s.calls && id in s.calls[c].Held() && id in s.calls[d].Held() :: c == d)
  }

  ghost predicate AtMostOnce(s: State) {
    forall id | id in s.registry :: s.registry[id].runs <= 1 && (s.registry[id].active ==> s.registry[id].runs == 0)
  }

  /** Nor is it ever lost. */
  ghost predicate NotLost(s: State) {
    forall id | id in s.registry && !s.registry[id].active && s.registry[id].runs == 0 ::
      exists c :: c in s.calls && id in s.calls[c].Held()
  }

  ghost predicate Ticketed(s: State) {
    Exclusive(s) && NotLost(s)
  }

  function InFlight(s: State, scope: Id): set<Id> {
    set c | c in s.calls && s.calls[c] == Operation(scope)
  }

  /** The counter counts the operations in flight; the flag is set when there are none. */
  ghost predicate Counted(s: State) {
    && (forall scope | scope in s.scopes :: s.scopes[scope].operations == |InFlight(s, scope)|)
    && (forall scope | scope in s.scopes :: s.scopes[scope].quiescent <==> s.scopes[scope].operations == 0)
    && (forall c | c in s.calls && s.calls[c].Operation? :: s.calls[c].scope in s.scopes)
  }

  /** At most one call disposes of a scope; it has closed admission, and calls disposers of
      the scope only while nothing is in flight. */
  ghost predicate Owned(s: State) {
    && (forall c | c in s.calls && s.calls[c].Owner? ::
          var it := s.calls[c];
          && it.scope in s.scopes
          && s.scopes[it.scope].disposing == Some(it.thread) && !s.scopes[it.scope].status.Disposed?
          && (it.phase.Own? ==> s.scopes[it.scope].operations == 0)
          && forall id | id in it.held :: id in s.registry && s.registry[id].scope == it.scope)
    && (forall c, d | c in s.calls && d in s.calls && s.calls[c].Owner? && s.calls[d].Owner?
                      && s.calls[c].scope == s.calls[d].scope :: c == d)
    && (forall scope | scope in s.scopes ::
          var it := s.scopes[scope];
          && (it.disposing.Some? || it.status.Disposed? ==> it.registrations == [] && !it.status.Active?)
          && (it.complete <==> it.status.Disposed?))
  }
}
