/** The parent chain of a session's messages: its validation, and the walk from a message
    back to the first one. */
module ParentChain {

  /** A missing id or parent is the empty text. */
  datatype Message = Message(id: string, parent: string)

  datatype Reason = FirstHasParent | MissingParent | ParentNotFound(parent: string)

  datatype Verdict = Valid | Broken(index: nat, reason: Reason)

  // -------------------------------------------------------------- validation

  /** The ids that messages before `n` have. */
  function IdsBefore(messages: seq<Message>, n: nat): set<string>
    requires n <= |messages|
  {
    set i | 0 <= i < n && messages[i].id != "" :: messages[i].id
  }

  /** What is wrong with the parent of message `i`, if anything. */
  predicate Linked(messages: seq<Message>, i: nat)
    requires i < |messages|
  {
    if i == 0 then messages[0].parent == ""
    else messages[i].parent != "" && messages[i].parent in IdsBefore(messages, i)
  }

  function Fault(messages: seq<Message>, i: nat): Reason
    requires i < |messages| && !Linked(messages, i)
  {
    if i == 0 then FirstHasParent
    else if messages[i].parent == "" then MissingParent
    else ParentNotFound(messages[i].parent)
  }

  ghost predicate Unbroken(messages: seq<Message>) {
    forall i | 0 <= i < |messages| :: Linked(messages, i)
  }

  /** Accepts a list if and only if its chain is unbroken, and else names the first message
      at which it breaks. */
  method ValidateParentChain(messages: seq<Message>) returns (verdict: Verdict)
    ensures verdict.Valid? <==> Unbroken(messages)
    ensures verdict.Broken? ==>
              && verdict.index < |messages| && !Linked(messages, verdict.index)
              && (forall i | 0 <= i < verdict.index :: Linked(messages, i))
              && verdict.reason == Fault(messages, verdict.index)
  {
    var seen: set<string> := {};
    for index := 0 to |messages|
      invariant seen == IdsBefore(messages, index)
      invariant forall i | 0 <= i < index :: Linked(messages, i)
    {
      var message := messages[index];
      if index == 0 {
        if message.parent != "" {
          assert !Linked(messages, index);
          return Broken(index, FirstHasParent);
        }
      } else {
        if message.parent == "" {
          assert !Linked(messages, index);
          return Broken(index, MissingParent);
        }
        if message.parent !in seen {
          assert !Linked(messages, index);
          return Broken(index, ParentNotFound(message.parent));
        }
      }
      if message.id != "" {
        seen := seen + {message.id};
      }
    }
    return Valid;
  }

  // -------------------------------------------------------------------- walk

  function Indices(n: nat): (indices: set<nat>)
    ensures forall i: nat :: i in indices <==> i < n
  {
    if n == 0 then {} else Indices(n - 1) + {n - 1}
  }

  function Members(chain: seq<nat>): set<nat> {
    set i | i in chain
  }

  /** How many messages are not on the chain. */
  function Left(n: nat, chain: seq<nat>): nat {
    |Indices(n) - Members(chain)|
  }

  /** The first message from `i` on that has the id and is not on the chain yet. */
  function FirstWith(messages: seq<Message>, id: string, chain: seq<nat>, i: nat): (found: nat)
    requires i <= |messages|
    ensures i <= found <= |messages|
    ensures found < |messages| ==> messages[found].id == id && found !in chain
    ensures forall k | i <= k < found :: messages[k].id != id || k in chain
    decreases |messages| - i
  {
    if i == |messages| || (messages[i].id == id && i !in chain) then i else FirstWith(messages, id, chain, i + 1)
  }

  ghost predicate InRange(messages: seq<Message>, chain: seq<nat>) {
    chain != [] && forall k | 0 <= k < |chain| :: chain[k] < |messages|
  }

  lemma Shrinks(n: nat, chain: seq<nat>, found: nat)
    requires found < n && found !in chain
    ensures Left(n, [found] + chain) < Left(n, chain)
    ensures Members([found] + chain) == Members(chain) + {found}
  {
    assert Members([found] + chain) == Members(chain) + {found};
    assert Indices(n) - Members(chain) == (Indices(n) - Members([found] + chain)) + {found};
  }

  predicate IsParent(messages: seq<Message>, earlier: nat, later: nat)
    requires earlier < |messages| && later < |messages|
  {
    messages[later].parent != "" && messages[earlier].id == messages[later].parent
  }

  /** The message that the walk goes to next, if there is one. */
  function NextOf(messages: seq<Message>, chain: seq<nat>): (found: nat)
    requires InRange(messages, chain)
    ensures found <= |messages| && (found < |messages| ==> found !in chain && IsParent(messages, found, chain[0]))
  {
    var parent := messages[chain[0]].parent;
    if parent == "" then |messages| else FirstWith(messages, parent, chain, 0)
  }

  /** From the front of the chain back, parent by parent. */
  function Walk(messages: seq<Message>, chain: seq<nat>): seq<nat>
    requires InRange(messages, chain)
    decreases Left(|messages|, chain)
  {
    var found := NextOf(messages, chain);
    if found == |messages| then chain
    else
      Shrinks(|messages|, chain, found);
      Walk(messages, [found] + chain)
  }

  lemma WalkStep(messages: seq<Message>, chain: seq<nat>)
    requires InRange(messages, chain)
    ensures var found := NextOf(messages, chain);
            if found == |messages| then Walk(messages, chain) == chain
            else
              && InRange(messages, [found] + chain) && Walk(messages, chain) == Walk(messages, [found] + chain)
              && Left(|messages|, [found] + chain) < Left(|messages|, chain)
              && Members([found] + chain) == Members(chain) + {found}
  {
    var found := NextOf(messages, chain);
    if found < |messages| {
      Shrinks(|messages|, chain, found);
    }
  }

  function Target(messages: seq<Message>, fromIndex: int): nat
    requires messages != [] && fromIndex < |messages|
  {
    if fromIndex >= 0 then fromIndex else |messages| - 1
  }

  function Chain(messages: seq<Message>, fromIndex: int): seq<nat> {
    if messages == [] || fromIndex >= |messages| then []
    else
      var target := Target(messages, fromIndex);
      assert InRange(messages, [target]);
      Walk(messages, [target])
  }

  /** The loop of the walk; it ends on every list of messages. */
  method GetMessageChain(messages: seq<Message>, fromIndex: int) returns (chain: seq<nat>)
    ensures chain == Chain(messages, fromIndex)
  {
    if messages == [] || fromIndex >= |messages| {
      return [];
    }
    chain := [Target(messages, fromIndex)];
    var seen := {chain[0]};
    assert seen == Members(chain) && InRange(messages, chain);
    hide Walk, Members, Left, FirstWith;
    while true
      invariant InRange(messages, chain) && seen == Members(chain)
      invariant Walk(messages, chain) == Chain(messages, fromIndex)
      decreases Left(|messages|, chain)
    {
      WalkStep(messages, chain);
      var parent := messages[chain[0]].parent;
      if parent == "" {
        break;
      }
      var found := FindMessage(messages, parent, chain, seen);
      if found == |messages| {
        break;
      }
      chain := [found] + chain;
      seen := seen + {found};
    }
  }

  /** Looks through all messages for one with the id that was not seen. */
  method FindMessage(messages: seq<Message>, id: string, ghost chain: seq<nat>, seen: set<nat>) returns (found: nat)
    requires seen == Members(chain)
    ensures found == FirstWith(messages, id, chain, 0)
  {
    found := 0;
    while found < |messages| && (found in seen || messages[found].id != id)
      invariant found <= |messages|
      invariant FirstWith(messages, id, chain, 0) == FirstWith(messages, id, chain, found)
    {
      found := found + 1;
    }
  }

  // ------------------------------------------------------------- properties

  /** Each message of the chain is the parent of the next. */
  ghost predicate ParentLinks(messages: seq<Message>, chain: seq<nat>) {
    InRange(messages, chain) && forall k | 0 < k < |chain| :: IsParent(messages, chain[k - 1], chain[k])
  }

  ghost predicate Rising(chain: seq<nat>) {
    forall k, l | 0 <= k < l < |chain| :: chain[k] < chain[l]
  }

  lemma {:induction false} WalkLinks(messages: seq<Message>, chain: seq<nat>)
    requires ParentLinks(messages, chain)
    ensures var whole := Walk(messages, chain);
            ParentLinks(messages, whole) && whole[|whole| - 1] == chain[|chain| - 1]
    decreases Left(|messages|, chain)
  {
    hide Walk, Members, Left, FirstWith;
    WalkStep(messages, chain);
    var found := NextOf(messages, chain);
    if found < |messages| {
      OneMoreLink(messages, chain, found);
      WalkLinks(messages, [found] + chain);
    }
  }

  lemma OneMoreLink(messages: seq<Message>, chain: seq<nat>, found: nat)
    requires ParentLinks(messages, chain) && found < |messages| && IsParent(messages, found, chain[0])
    ensures ParentLinks(messages, [found] + chain)
  {
    var longer := [found] + chain;
    forall k | 0 < k < |longer| ensures IsParent(messages, longer[k - 1], longer[k]) {
      if k > 1 {
        assert IsParent(messages, chain[k - 2], chain[k - 1]);
      }
    }
  }

  /** On an unbroken list the walk only ever goes to an earlier message, and reaches the first. */
  lemma {:induction false} WalkRises(messages: seq<Message>, chain: seq<nat>)
    requires Unbroken(messages) && InRange(messages, chain) && Rising(chain)
    ensures Rising(Walk(messages, chain)) && Walk(messages, chain) != [] && Walk(messages, chain)[0] == 0
    decreases Left(|messages|, chain)
  {
    hide Walk, Members, Left;
    WalkStep(messages, chain);
    NextIsEarlier(messages, chain);
    hide Unbroken, NextOf;
    if chain[0] > 0 {
      WalkRises(messages, [NextOf(messages, chain)] + chain);
    }
  }

  lemma NextIsEarlier(messages: seq<Message>, chain: seq<nat>)
    requires Unbroken(messages) && InRange(messages, chain) && Rising(chain)
    ensures if chain[0] == 0 then NextOf(messages, chain) == |messages|
            else NextOf(messages, chain) < chain[0] && Rising([NextOf(messages, chain)] + chain)
  {
    var head := chain[0];
    assert Linked(messages, head);
    if head > 0 {
      var parent := messages[head].parent;
      var j :| 0 <= j < head && messages[j].id == parent;
      assert j !in chain;
    }
  }

  /** Each message of the chain but the last is the first one with the id that the next names as
      its parent, among those that do not come later in the chain. */
  ghost predicate TakesFirst(messages: seq<Message>, chain: seq<nat>)
    requires InRange(messages, chain)
  {
    forall k, m | 0 < k < |chain| && 0 <= m < chain[k - 1] && messages[m].id == messages[chain[k]].parent :: m in chain[k..]
  }

  ghost predicate Distinct(chain: seq<nat>) {
    forall k, l | 0 <= k < l < |chain| :: chain[k] != chain[l]
  }

  /** A chain up to the message asked for, or to the last one. */
  ghost predicate LeadsTo(messages: seq<Message>, fromIndex: int, chain: seq<nat>) {
    ParentLinks(messages, chain) && Distinct(chain) && TakesFirst(messages, chain)
    && chain[|chain| - 1] == if fromIndex < 0 then |messages| - 1 else fromIndex
  }

  /** A chain on any list, broken or not: such a chain that nothing can be put in front of. */
  ghost predicate IsChain(messages: seq<Message>, fromIndex: int, chain: seq<nat>) {
    LeadsTo(messages, fromIndex, chain)
    && (messages[chain[0]].parent != "" ==>
          forall m | 0 <= m < |messages| && messages[m].id == messages[chain[0]].parent :: m in chain)
  }

  /** The part of a chain from number `k` on leads to the whole. */
  lemma {:induction false} WalkOfChain(messages: seq<Message>, fromIndex: int, chain: seq<nat>, k: nat)
    requires IsChain(messages, fromIndex, chain) && k < |chain|
    ensures InRange(messages, chain[k..]) && Walk(messages, chain[k..]) == chain
    decreases k
  {
    hide Walk, Members, Left;
    var part := chain[k..];
    WalkStep(messages, part);
    if k == 0 {
      assert part == chain;
    } else {
      assert IsParent(messages, chain[k - 1], chain[k]);
      assert chain[k - 1] !in part;
      assert [chain[k - 1]] + part == chain[k - 1..];
      WalkOfChain(messages, fromIndex, chain, k - 1);
    }
  }

  /** What the walk collects in front of a chain whose messages are told. */
  lemma {:induction false} WalkIsChain(messages: seq<Message>, fromIndex: int, chain: seq<nat>)
    requires LeadsTo(messages, fromIndex, chain)
    ensures IsChain(messages, fromIndex, Walk(messages, chain))
    decreases Left(|messages|, chain)
  {
    hide Walk, Members, Left;
    WalkStep(messages, chain);
    var found := NextOf(messages, chain);
    if found < |messages| {
      LeadsToNext(messages, fromIndex, chain, found);
      WalkIsChain(messages, fromIndex, [found] + chain);
    }
  }

  lemma LeadsToNext(messages: seq<Message>, fromIndex: int, chain: seq<nat>, found: nat)
    requires LeadsTo(messages, fromIndex, chain) && found == NextOf(messages, chain) && found < |messages|
    ensures LeadsTo(messages, fromIndex, [found] + chain)
  {
    OneMoreLink(messages, chain, found);
    TakesFirstNext(messages, chain, found);
    hide ParentLinks, TakesFirst, NextOf;
  }

  lemma TakesFirstNext(messages: seq<Message>, chain: seq<nat>, found: nat)
    requires InRange(messages, chain) && TakesFirst(messages, chain)
    requires found == NextOf(messages, chain) && found < |messages|
    ensures InRange(messages, [found] + chain) && TakesFirst(messages, [found] + chain)
  {
    var longer := [found] + chain;
    forall k, m | 0 < k < |longer| && 0 <= m < longer[k - 1] && messages[m].id == messages[longer[k]].parent
      ensures m in longer[k..]
    {
      assert longer[k..] == chain[k - 1..] && longer[k] == chain[k - 1];
      if k == 1 {
        assert chain[0..] == chain;
      } else {
        assert longer[k - 1] == chain[k - 2];
      }
    }
  }

  /** On every list and for every index the walk gives the one such chain; there is none for an
      index beyond the list. */
  lemma ChainTold(messages: seq<Message>, fromIndex: int, chain: seq<nat>)
    ensures chain == Chain(messages, fromIndex)
        <==> if messages == [] || fromIndex >= |messages| then chain == [] else IsChain(messages, fromIndex, chain)
  {
    if messages != [] && fromIndex < |messages| {
      WalkIsChain(messages, fromIndex, [Target(messages, fromIndex)]);
      if IsChain(messages, fromIndex, chain) {
        WalkOfChain(messages, fromIndex, chain, |chain| - 1);
        assert chain[|chain| - 1..] == [Target(messages, fromIndex)];
      }
    }
  }

  /** A path of parents that rises from the first message to the target. */
  ghost predicate FullChain(messages: seq<Message>, target: nat, chain: seq<nat>) {
    && chain != [] && chain[0] == 0 && chain[|chain| - 1] == target
    && Rising(chain) && ParentLinks(messages, chain)
  }

  lemma ChainEnds(messages: seq<Message>, target: nat)
    requires target < |messages|
    ensures var chain := Chain(messages, target);
            chain != [] && chain[|chain| - 1] == target && ParentLinks(messages, chain)
  {
    WalkLinks(messages, [target]);
  }

  /** Validation accepts exactly the lists whose first message has no parent and in which the
      walk from every message rises from the first one, parent by parent; duplicate and empty
      ids are no exception. */
  lemma ValidIffFullChains(messages: seq<Message>)
    ensures Unbroken(messages)
        <==> (messages != [] ==> messages[0].parent == "")
             && forall target: nat | target < |messages| :: FullChain(messages, target, Chain(messages, target))
  {
    if Unbroken(messages) {
      if messages != [] {
        assert Linked(messages, 0);
      }
      forall target: nat | target < |messages| ensures FullChain(messages, target, Chain(messages, target)) {
        ChainEnds(messages, target);
        WalkRises(messages, [target]);
      }
    } else {
      var i :| 0 <= i < |messages| && !Linked(messages, i);
      if i > 0 && FullChain(messages, i, Chain(messages, i)) {
        ChainShowsLink(messages, i, Chain(messages, i));
      }
    }
  }

  lemma ChainShowsLink(messages: seq<Message>, i: nat, chain: seq<nat>)
    requires 0 < i < |messages| && FullChain(messages, i, chain)
    ensures Linked(messages, i)
  {
    var k := |chain| - 1;
    assert chain[k] == i && chain[k - 1] < i && IsParent(messages, chain[k - 1], chain[k]);
  }
}
