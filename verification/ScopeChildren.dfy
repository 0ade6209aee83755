/** Under every interleaving a scope's own disposers wait for its children. */
module ScopeChildren {
  import opened Outcomes
  import opened Runs
  import opened ScopeMachine
  import opened ScopeSafety

  /** A scope that is not disposed stands in its parent's list, and only a disposed scope is
      taken off it. */
  ghost predicate Parented(s: State) {
    && (forall id | id in s.scopes && s.scopes[id].parent.Some? && !s.scopes[id].status.Disposed? ::
          s.scopes[id].parent.value in s.scopes && id in s.scopes[s.scopes[id].parent.value].children)
    && (forall c | c in s.calls && s.calls[c].Detacher? ::
          s.calls[c].scope in s.scopes && s.scopes[s.calls[c].scope].status.Disposed?)
  }

  /** A disposing call has passed every child that it has not still before it. */
  ghost predicate Descending(s: State) {
    forall c | c in s.calls && s.calls[c].Owner? ::
      && (s.calls[c].phase.Own? ==> s.calls[c].left == [])
      && forall id | id in s.scopes && s.scopes[id].parent == Some(s.calls[c].scope) && id !in s.calls[c].left ::
           Passed(s, id, s.calls[c].thread)
  }

  ghost predicate Familial(s: State) {
    Parented(s) && Descending(s)
  }

  /** No parent, child, disposal or disposing call changes. */
  ghost predicate SameFamily(s: State, t: State) {
    && t.scopes.Keys == s.scopes.Keys
    && (forall id | id in s.scopes ::
          && t.scopes[id].parent == s.scopes[id].parent && t.scopes[id].children == s.scopes[id].children
          && (t.scopes[id].status.Disposed? <==> s.scopes[id].status.Disposed?)
          && t.scopes[id].disposing == s.scopes[id].disposing)
    && (forall c | c in t.calls && t.calls[c].Owner? :: c in s.calls && SameOwner(s.calls[c], t.calls[c]))
    && (forall c | c in t.calls && t.calls[c].Detacher? :: c in s.calls && s.calls[c] == t.calls[c])
  }

  predicate SameOwner(before: Call, after: Call) {
    before.Owner? && after.Owner? && after.scope == before.scope && after.thread == before.thread
    && after.phase == before.phase && after.left == before.left
  }

  lemma FamilialSame(s: State, t: State)
    requires Familial(s) && SameFamily(s, t)
    ensures Familial(t)
  {
  }

  lemma RegisterScopesKeepFamily(s: State, t: State, id: Id, scope: Id)
    requires DoRegister(s, id, scope) == Some(t)
    ensures SameFamily(s, t)
  {
  }

  lemma DisposeOneScopesKeepFamily(s: State, t: State, call: Id, id: Id)
    requires DoDisposeOne(s, call, id) == Some(t)
    ensures SameFamily(s, t)
  {
    hide Without;
  }

  lemma FailScopesKeepFamily(s: State, t: State, call: Id)
    requires DoFail(s, call) == Some(t)
    ensures SameFamily(s, t)
  {
    hide Deactivated;
  }

  lemma ScopesKeepFamily(s: State, t: State, step: Step)
    requires Next(s, step) == Some(t)
    requires step.Register? || step.DisposeOne? || step.Fail?
    ensures SameFamily(s, t)
  {
    hide SameFamily, DoDisposeOne, DoFail, DoRegister;
    match step
    case Register(id, scope) => RegisterScopesKeepFamily(s, t, id, scope);
    case DisposeOne(call, id) => DisposeOneScopesKeepFamily(s, t, call, id);
    case Fail(call) => FailScopesKeepFamily(s, t, call);
  }

  lemma EnterAdmissionKeepsFamily(s: State, t: State, call: Id, scope: Id)
    requires DoEnter(s, call, scope) == Some(t)
    ensures SameFamily(s, t)
  {
  }

  lemma ExitAdmissionKeepsFamily(s: State, t: State, call: Id)
    requires DoExit(s, call) == Some(t)
    ensures SameFamily(s, t)
  {
  }

  lemma QuiesceAdmissionKeepsFamily(s: State, t: State, scope: Id)
    requires DoQuiesce(s, scope) == Some(t)
    ensures SameFamily(s, t)
  {
  }

  lemma AdmissionKeepsFamily(s: State, t: State, step: Step)
    requires Next(s, step) == Some(t) && (step.Enter? || step.Exit? || step.Quiesce?)
    ensures SameFamily(s, t)
  {
    hide SameFamily, DoEnter, DoExit, DoQuiesce;
    match step
    case Enter(call, scope) => EnterAdmissionKeepsFamily(s, t, call, scope);
    case Exit(call) => ExitAdmissionKeepsFamily(s, t, call);
    case Quiesce(scope) => QuiesceAdmissionKeepsFamily(s, t, scope);
  }

  lemma CallsKeepFamily(s: State, t: State, step: Step)
    requires Next(s, step) == Some(t) && (step.Begin? || step.Commit? || step.RunHeld? || step.Return?)
    ensures SameFamily(s, t)
  {
    match step
    case Begin(call, scope) =>
    case Commit(call) =>
    case RunHeld(call) =>
    case Return(call) =>
  }

  /** A new scope has a parent that is not being disposed, or none. */
  lemma FamilialCreate(s: State, t: State, id: Id, parent: Option<Id>)
    requires Familial(s) && Owned(s) && id !in s.scopes && t.calls == s.calls && t.registry == s.registry
    requires parent.Some? ==> parent.value in s.scopes && s.scopes[parent.value].status.Active?
    requires t.scopes.Keys == s.scopes.Keys + {id} && t.scopes[id] == NewScope(parent)
    requires forall other | other in s.scopes ::
               t.scopes[other] == if parent == Some(other) then s.scopes[other].(children := s.scopes[other].children + [id])
                                  else s.scopes[other]
    ensures Familial(t)
  {
    forall c | c in t.calls && t.calls[c].Owner? ensures parent != Some(t.calls[c].scope) {
      assert !s.scopes[s.calls[c].scope].status.Active?;
    }
    hide Owned;
  }

  lemma FamilialDispose(s: State, t: State, call: Id, scope: Id, thread: Id)
    requires Familial(s) && DoDispose(s, call, scope, thread) == Some(t)
    ensures Familial(t)
  {
    var it := s.scopes[scope];
    if it.status.Disposed? || it.disposing.Some? {
    } else {
      NewOwnerDescends(s, t, call, scope, thread);
    }
  }

  lemma NewOwnerDescends(s: State, t: State, call: Id, scope: Id, thread: Id)
    requires Familial(s) && DoDispose(s, call, scope, thread) == Some(t)
    requires !s.scopes[scope].status.Disposed? && s.scopes[scope].disposing.None?
    ensures Familial(t)
  {
    hide Deactivated;
    forall c | c in t.calls && t.calls[c].Owner?
      ensures t.calls[c].phase.Own? ==> t.calls[c].left == []
      ensures forall id | id in t.scopes && t.scopes[id].parent == Some(t.calls[c].scope) && id !in t.calls[c].left ::
                Passed(t, id, t.calls[c].thread)
    {
      forall id | id in t.scopes && t.scopes[id].parent == Some(t.calls[c].scope) && id !in t.calls[c].left
        ensures Passed(t, id, t.calls[c].thread)
      {
        assert c != call ==> Passed(s, id, t.calls[c].thread);
      }
    }
  }

  lemma FamilialNext(s: State, t: State, call: Id)
    requires Familial(s) && DoNextChild(s, call) == Some(t)
    ensures Familial(t)
  {
    var left := s.calls[call].left;
    assert left == left[..|left| - 1] + [left[|left| - 1]];
  }

  lemma FamilialPass(s: State, t: State, call: Id)
    requires Familial(s) && DoPassQuiet(s, call) == Some(t)
    ensures Familial(t)
  {
  }

  lemma FamilialFinish(s: State, t: State, call: Id)
    requires Familial(s) && DoFinish(s, call) == Some(t)
    ensures Familial(t)
  {
    forall c, id | c in t.calls && t.calls[c].Owner? && id in t.scopes && t.scopes[id].parent == Some(t.calls[c].scope)
                   && id !in t.calls[c].left
      ensures Passed(t, id, t.calls[c].thread)
    {
      assert Passed(s, id, s.calls[c].thread);
    }
  }

  lemma {:induction false} WithoutAllKeeps(ids: seq<Id>, gone: Id, id: Id)
    requires id in ids && id != gone
    ensures id in WithoutAll(ids, gone)
  {
    if ids[0] != id {
      WithoutAllKeeps(ids[1..], gone, id);
    }
  }

  lemma FamilialDetach(s: State, t: State, call: Id)
    requires Familial(s) && DoDetach(s, call) == Some(t)
    ensures Familial(t)
  {
    var gone := s.calls[call].scope;
    forall id | id in t.scopes && t.scopes[id].parent.Some? && !t.scopes[id].status.Disposed?
      ensures t.scopes[id].parent.value in t.scopes && id in t.scopes[t.scopes[id].parent.value].children
    {
      WithoutAllKeeps(s.scopes[s.scopes[id].parent.value].children, gone, id);
    }
    hide WithoutAll;
  }

  lemma FamilialKept(s: State, t: State, step: Step)
    requires Owned(s) && Familial(s) && Next(s, step) == Some(t)
    ensures Familial(t)
  {
    hide Familial, Owned, SameFamily, DoRegister, DoDisposeOne, DoEnter, DoExit, DoBegin, DoFail, DoQuiesce, DoDispose,
         DoNextChild, DoPassQuiet, DoRunHeld, DoFinish, DoDetach, DoReturn;
    match step
    case CreateRoot(id) => FamilialCreate(s, t, id, None);
    case CreateChild(id, parent) => FamilialCreate(s, t, id, Some(parent));
    case Dispose(call, scope, thread) => FamilialDispose(s, t, call, scope, thread);
    case NextChild(call) => FamilialNext(s, t, call);
    case PassQuiet(call) => FamilialPass(s, t, call);
    case Finish(call) => FamilialFinish(s, t, call);
    case Detach(call) => FamilialDetach(s, t, call);
    case _ =>
      if step.Register? || step.DisposeOne? || step.Fail? {
        ScopesKeepFamily(s, t, step);
      } else if step.Enter? || step.Exit? || step.Quiesce? {
        AdmissionKeepsFamily(s, t, step);
      } else {
        CallsKeepFamily(s, t, step);
      }
      FamilialSame(s, t);
  }

  /** In every state of every interleaving. */
  lemma {:induction false} AlwaysFamilial(steps: seq<Step>, i: nat)
    requires i < |States(steps)|
    ensures Familial(States(steps)[i])
  {
    if i > 0 {
      AlwaysFamilial(steps, i - 1);
      AlwaysSafe(steps, i - 1);
      TraceSteps(START, steps, Next, i - 1);
      hide Familial, Next;
      FamilialKept(States(steps)[i - 1], States(steps)[i], steps[i - 1]);
    }
  }

  /** Whenever a disposing call runs one of its own disposers, each child that its scope ever
      had is disposed, or its disposal is under way on the same thread, further up. */
  lemma ChildrenFirst(steps: seq<Step>, i: nat, call: Id, child: Id)
    requires i < |States(steps)|
    requires var s := States(steps)[i];
             && Next(s, RunHeld(call)).Some? && s.calls[call].Owner?
             && child in s.scopes && s.scopes[child].parent == Some(s.calls[call].scope)
    ensures var s := States(steps)[i];
            s.scopes[child].status.Disposed? || s.scopes[child].disposing == Some(s.calls[call].thread)
  {
    AlwaysFamilial(steps, i);
  }

  // ------------------------------------------------------- taken off the list

  /** Whoever is listed as a child is one, and is not disposed, but for one that a call is about to
      take off the list. */
  ghost predicate ListsLiving(s: State) {
    forall p, c | p in s.scopes && c in s.scopes[p].children ::
      && c in s.scopes && s.scopes[c].parent == Some(p)
      && (s.scopes[c].status.Disposed? ==> Detaching(s, c))
  }

  ghost predicate Detaching(s: State, scope: Id) {
    exists call :: call in s.calls && s.calls[call] == Detacher(scope)
  }

  /** The lists of children stay, nobody is disposed, and whoever takes off a child is still at it. */
  ghost predicate SameChildren(s: State, t: State) {
    && t.scopes.Keys == s.scopes.Keys
    && (forall id | id in s.scopes ::
          && t.scopes[id].parent == s.scopes[id].parent && t.scopes[id].children == s.scopes[id].children
          && (t.scopes[id].status.Disposed? <==> s.scopes[id].status.Disposed?))
    && (forall c | c in s.calls && s.calls[c].Detacher? :: c in t.calls && t.calls[c] == s.calls[c])
  }

  /** Whoever takes off `scope` is still at it. */
  ghost predicate SameDetachers(s: State, t: State, scope: Id) {
    forall call | call in s.calls && s.calls[call] == Detacher(scope) :: call in t.calls && t.calls[call] == s.calls[call]
  }

  lemma StillDetaching(s: State, t: State, scope: Id)
    requires Detaching(s, scope) && SameDetachers(s, t, scope)
    ensures Detaching(t, scope)
  {
    var call :| call in s.calls && s.calls[call] == Detacher(scope);
    assert t.calls[call] == Detacher(scope);
  }

  lemma LivingSame(s: State, t: State)
    requires ListsLiving(s) && SameChildren(s, t)
    ensures ListsLiving(t)
  {
    hide Detaching;
    forall p, c | p in t.scopes && c in t.scopes[p].children
      ensures c in t.scopes && t.scopes[c].parent == Some(p) && (t.scopes[c].status.Disposed? ==> Detaching(t, c))
    {
      if s.scopes[c].status.Disposed? {
        StillDetaching(s, t, c);
      }
    }
  }

  lemma ListsKeepChildren(s: State, t: State, step: Step)
    requires Next(s, step) == Some(t) && (step.Register? || step.DisposeOne? || step.Fail? || step.Dispose? || step.Quiesce?)
    ensures SameChildren(s, t)
  {
    hide Without, Deactivated;
    match step
    case Register(_, _) =>
    case DisposeOne(_, _) =>
    case Fail(_) =>
    case Dispose(_, _, _) =>
    case Quiesce(_) =>
  }

  lemma CallsKeepChildren(s: State, t: State, step: Step)
    requires Next(s, step) == Some(t)
    requires step.Enter? || step.Exit? || step.Begin? || step.Commit? || step.NextChild? || step.PassQuiet? || step.RunHeld?
             || step.Return?
    ensures SameChildren(s, t)
  {
    match step
    case Enter(_, _) =>
    case Exit(_) =>
    case Begin(_, _) =>
    case Commit(_) =>
    case NextChild(_) =>
    case PassQuiet(_) =>
    case RunHeld(_) =>
    case Return(_) =>
  }

  lemma LivingFinish(s: State, t: State, call: Id)
    requires ListsLiving(s) && DoFinish(s, call) == Some(t)
    ensures ListsLiving(t)
  {
    var gone := s.calls[call].scope;
    assert t.calls[call] == Detacher(gone);
    forall p, c | p in t.scopes && c in t.scopes[p].children && t.scopes[c].status.Disposed? ensures Detaching(t, c) {
      if c != gone {
        var other :| other in s.calls && s.calls[other] == Detacher(c);
        assert t.calls[other] == Detacher(c);
      }
    }
  }

  lemma {:induction false} WithoutAllDrops(ids: seq<Id>, gone: Id, id: Id)
    requires id in WithoutAll(ids, gone)
    ensures id in ids && id != gone
  {
    if ids[0] == gone || ids[0] != id {
      WithoutAllDrops(ids[1..], gone, id);
    }
  }

  lemma LivingDetach(s: State, t: State, call: Id)
    requires ListsLiving(s) && DoDetach(s, call) == Some(t)
    ensures ListsLiving(t)
  {
    var gone := s.calls[call].scope;
    forall p, c | p in t.scopes && c in t.scopes[p].children
      ensures c in t.scopes && t.scopes[c].parent == Some(p) && (t.scopes[c].status.Disposed? ==> Detaching(t, c))
    {
      ChildStaysListed(s, t, call, p, c);
      hide DoDetach, Detaching;
      if t.scopes[c].status.Disposed? {
        StillDetaching(s, t, c);
      }
    }
  }

  lemma ChildStaysListed(s: State, t: State, call: Id, p: Id, c: Id)
    requires ListsLiving(s) && DoDetach(s, call) == Some(t) && p in t.scopes && c in t.scopes[p].children
    ensures p in s.scopes && c in s.scopes[p].children && c in t.scopes && c in s.scopes
    ensures t.scopes[c].parent == s.scopes[c].parent && t.scopes[c].status == s.scopes[c].status
    ensures SameDetachers(s, t, c)
  {
    hide Detaching, ListsLiving, WithoutAll;
    var gone := s.calls[call].scope;
    if s.scopes[gone].parent == Some(p) {
      WithoutAllDrops(s.scopes[p].children, gone, c);
    }
    ListedIsOwn(s, p, c);
    assert c != gone;
  }

  lemma ListedIsOwn(s: State, p: Id, c: Id)
    requires ListsLiving(s) && p in s.scopes && c in s.scopes[p].children
    ensures c in s.scopes && s.scopes[c].parent == Some(p)
  {
  }

  lemma LivingCreate(s: State, t: State, step: Step)
    requires ListsLiving(s) && Next(s, step) == Some(t) && (step.CreateRoot? || step.CreateChild?)
    ensures ListsLiving(t)
  {
    hide Detaching;
    forall p, c | p in t.scopes && c in t.scopes[p].children && c in s.scopes && s.scopes[c].status.Disposed?
      ensures Detaching(t, c)
    {
      StillDetaching(s, t, c);
    }
  }

  lemma LivingKept(s: State, t: State, step: Step)
    requires ListsLiving(s) && Next(s, step) == Some(t)
    ensures ListsLiving(t)
  {
    hide ListsLiving, SameChildren, DoRegister, DoDisposeOne, DoEnter, DoExit, DoBegin, DoFail, DoQuiesce, DoDispose,
         DoNextChild, DoPassQuiet, DoRunHeld, DoFinish, DoDetach, DoReturn;
    match step
    case CreateRoot(_) => LivingCreate(s, t, step);
    case CreateChild(_, _) => LivingCreate(s, t, step);
    case Finish(call) => LivingFinish(s, t, call);
    case Detach(call) => LivingDetach(s, t, call);
    case _ =>
      if step.Register? || step.DisposeOne? || step.Fail? || step.Dispose? || step.Quiesce? {
        ListsKeepChildren(s, t, step);
      } else {
        CallsKeepChildren(s, t, step);
      }
      LivingSame(s, t);
  }

  /** In every state of every interleaving a scope lists children of its own only, and none that is
      disposed, unless its disposing call has not yet taken it off: once that call returns, the
      child is forgotten. */
  lemma {:induction false} ChildrenForgotten(steps: seq<Step>, i: nat)
    requires i < |States(steps)|
    ensures ListsLiving(States(steps)[i])
  {
    if i > 0 {
      ChildrenForgotten(steps, i - 1);
      TraceSteps(START, steps, Next, i - 1);
      hide ListsLiving, Next;
      LivingKept(States(steps)[i - 1], States(steps)[i], steps[i - 1]);
    }
  }
}
