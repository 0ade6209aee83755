/** The runtime capabilities that a bundle needs, and the runtime components that provide
    them. */
module RuntimeClosure {
  import opened Outcomes
  import opened Text
  import opened TextSort
  import opened DepthFirst

  datatype RuntimeComponent = RuntimeComponent(provided: seq<string>, needs: seq<string>)

  /** What an index of runtime components guarantees. */
  ghost predicate Indexed(components: map<string, RuntimeComponent>, providers: map<string, string>) {
    && (forall c | c in providers :: providers[c] in components && c in components[providers[c]].provided)
    && (forall k, c | k in components && c in components[k].provided :: c in providers && providers[c] == k)
    && (forall c | c in providers :: Stripped(c))
  }

  // ------------------------------------------------------------------- index

  datatype RawComponent = RawComponent(id: string, provided: seq<string>, needs: seq<string>)

  function StripAll(texts: seq<string>): (stripped: seq<string>)
    ensures |stripped| == |texts|
    ensures forall i | 0 <= i < |texts| :: stripped[i] == Strip(texts[i])
  {
    seq(|texts|, i requires 0 <= i < |texts| => Strip(texts[i]))
  }

  /** A list of capability ids: no blanks, no repetitions, each of the right form. */
  predicate CapabilityList(texts: seq<string>, wellFormed: string -> bool) {
    && (forall i | 0 <= i < |texts| :: Strip(texts[i]) != "" && wellFormed(Strip(texts[i])))
    && (forall i, j | 0 <= i < j < |texts| :: Strip(texts[i]) != Strip(texts[j]))
  }

  const INDEX_ERRORS := {"invalid_runtime_component_id", "duplicate_runtime_component", "invalid_runtime_capability",
                         "invalid_runtime_requirement", "ambiguous_runtime_provider"}

  /** A record as it is filed. */
  function Filed(record: RawComponent): RuntimeComponent {
    RuntimeComponent(StripAll(record.provided), StripAll(record.needs))
  }

  predicate GoodRecord(record: RawComponent, wellFormed: string -> bool) {
    && Strip(record.id) != "" && record.provided != []
    && CapabilityList(record.provided, wellFormed) && CapabilityList(record.needs, wellFormed)
  }

  /** Two records have different ids, and provide nothing in common. */
  ghost predicate Compatible(a: RawComponent, b: RawComponent) {
    Strip(a.id) != Strip(b.id) && forall c | c in StripAll(a.provided) :: c !in StripAll(b.provided)
  }

  /** Records that can be indexed. */
  ghost predicate Indexable(raw: seq<RawComponent>, wellFormed: string -> bool) {
    && (forall i | 0 <= i < |raw| :: GoodRecord(raw[i], wellFormed))
    && (forall i, j | 0 <= i < j < |raw| :: Compatible(raw[i], raw[j]))
  }

  /** Every record is filed under its stripped id, with stripped lists, and nothing else is. */
  ghost predicate IndexOf(raw: seq<RawComponent>, components: map<string, RuntimeComponent>, providers: map<string, string>) {
    Indexed(components, providers) && FiledUnder(raw, components)
  }

  /** What is filed is the record with its texts stripped. */
  ghost predicate Carries(component: RuntimeComponent, record: RawComponent) {
    && |component.provided| == |record.provided| && |component.needs| == |record.needs|
    && (forall i | 0 <= i < |record.provided| :: component.provided[i] == Strip(record.provided[i]))
    && (forall i | 0 <= i < |record.needs| :: component.needs[i] == Strip(record.needs[i]))
  }

  ghost predicate FiledUnder(raw: seq<RawComponent>, components: map<string, RuntimeComponent>) {
    && (forall i | 0 <= i < |raw| :: Strip(raw[i].id) in components && Carries(components[Strip(raw[i].id)], raw[i]))
    && (forall k | k in components :: exists i :: 0 <= i < |raw| && Strip(raw[i].id) == k)
  }

  method IndexRuntimeComponents(raw: seq<RawComponent>, wellFormed: string -> bool)
    returns (result: Result<(map<string, RuntimeComponent>, map<string, string>)>)
    ensures result.Ok? <==> Indexable(raw, wellFormed)
    ensures result.Ok? ==> IndexOf(raw, result.value.0, result.value.1)
    ensures result.Err? ==> result.error in INDEX_ERRORS
  {
    var components: map<string, RuntimeComponent> := map[];
    var providers: map<string, string> := map[];
    NothingIndexed(raw, wellFormed);
    hide IndexOf, Indexable, GoodRecord, Compatible;
    for i := 0 to |raw|
      invariant IndexOf(raw[..i], components, providers) && Indexable(raw[..i], wellFormed)
    {
      assert raw[..i + 1] == raw[..i] + [raw[i]];
      var more := IndexRecord(raw[..i], raw[i], wellFormed, components, providers);
      if more.Err? {
        NeverIndexable(raw, wellFormed, i + 1);
        return Err(more.error);
      }
      components, providers := more.value.0, more.value.1;
    }
    assert raw[..|raw|] == raw;
    result := Ok((components, providers));
  }

  lemma NothingIndexed(raw: seq<RawComponent>, wellFormed: string -> bool)
    ensures IndexOf(raw[..0], map[], map[]) && Indexable(raw[..0], wellFormed)
  {
  }

  lemma NeverIndexable(raw: seq<RawComponent>, wellFormed: string -> bool, n: nat)
    requires n <= |raw| && !Indexable(raw[..n], wellFormed)
    ensures !Indexable(raw, wellFormed)
  {
    hide GoodRecord, Compatible;
    assert forall i | 0 <= i < n :: raw[..n][i] == raw[i];
  }

  /** One record more in the index. */
  method IndexRecord(raw: seq<RawComponent>, record: RawComponent, wellFormed: string -> bool,
                     components: map<string, RuntimeComponent>, providers: map<string, string>)
    returns (result: Result<(map<string, RuntimeComponent>, map<string, string>)>)
    requires IndexOf(raw, components, providers) && Indexable(raw, wellFormed)
    ensures result.Ok? <==> Indexable(raw + [record], wellFormed)
    ensures result.Ok? ==> IndexOf(raw + [record], result.value.0, result.value.1)
    ensures result.Err? ==> result.error in INDEX_ERRORS
  {
    IndexableNext(raw, record, wellFormed);
    hide IndexOf, Indexable, Compatible, CapabilityList, StripAll;
    var id := Strip(record.id);
    if id == "" {
      return Err("invalid_runtime_component_id");
    }
    if id in components {
      IdTaken(raw, record, components, providers);
      return Err("duplicate_runtime_component");
    }
    if !CapabilityList(record.provided, wellFormed) || record.provided == [] {
      return Err("invalid_runtime_capability");
    }
    if !CapabilityList(record.needs, wellFormed) {
      return Err("invalid_runtime_requirement");
    }
    DistinctStripped(record.provided, wellFormed);
    var provided := StripAll(record.provided);
    var more := ClaimCapabilities(providers, provided, id);
    ClaimsCompatible(raw, record, components, providers);
    if more.Err? {
      return Err(more.error);
    }
    IndexGrows(raw, record, components, providers, more.value);
    return Ok((components[id := Filed(record)], more.value));
  }

  lemma DistinctStripped(texts: seq<string>, wellFormed: string -> bool)
    requires CapabilityList(texts, wellFormed)
    ensures forall i, j | 0 <= i < j < |texts| :: StripAll(texts)[i] != StripAll(texts)[j]
    ensures forall i | 0 <= i < |texts| :: Stripped(StripAll(texts)[i])
  {
    hide Strip, Stripped;
  }

  lemma IndexableNext(raw: seq<RawComponent>, record: RawComponent, wellFormed: string -> bool)
    requires Indexable(raw, wellFormed)
    ensures Indexable(raw + [record], wellFormed)
       <==> GoodRecord(record, wellFormed) && forall i | 0 <= i < |raw| :: Compatible(raw[i], record)
  {
    hide GoodRecord, Compatible;
    var all := raw + [record];
    assert forall i | 0 <= i < |raw| :: all[i] == raw[i];
    if Indexable(all, wellFormed) {
      assert GoodRecord(all[|raw|], wellFormed);
      assert forall i | 0 <= i < |raw| :: Compatible(all[i], all[|raw|]);
    }
  }

  lemma IdTaken(raw: seq<RawComponent>, record: RawComponent, components: map<string, RuntimeComponent>,
                providers: map<string, string>)
    requires IndexOf(raw, components, providers) && Strip(record.id) in components
    ensures exists i :: 0 <= i < |raw| && !Compatible(raw[i], record)
  {
    var i :| 0 <= i < |raw| && Strip(raw[i].id) == Strip(record.id);
    assert !Compatible(raw[i], record);
    hide Strip;
  }

  /** A new record goes with all others exactly when nothing that it provides has a provider. */
  lemma ClaimsCompatible(raw: seq<RawComponent>, record: RawComponent, components: map<string, RuntimeComponent>,
                         providers: map<string, string>)
    requires IndexOf(raw, components, providers) && Strip(record.id) !in components
    ensures (forall c | c in StripAll(record.provided) :: c !in providers)
       <==> forall i | 0 <= i < |raw| :: Compatible(raw[i], record)
  {
    hide Strip, Stripped, StripAll;
    if c :| c in StripAll(record.provided) && c in providers {
      var k := providers[c];
      var i :| 0 <= i < |raw| && Strip(raw[i].id) == k;
      assert c in Filed(raw[i]).provided;
      assert !Compatible(raw[i], record);
    }
    forall i | 0 <= i < |raw| && forall c | c in StripAll(record.provided) :: c !in providers
      ensures Compatible(raw[i], record)
    {
      assert Strip(raw[i].id) in components && components[Strip(raw[i].id)].provided == StripAll(raw[i].provided);
    }
  }

  lemma IndexGrows(raw: seq<RawComponent>, record: RawComponent, components: map<string, RuntimeComponent>,
                   providers: map<string, string>, more: map<string, string>)
    requires IndexOf(raw, components, providers) && Strip(record.id) !in components
    requires forall c | c in StripAll(record.provided) :: c !in providers && Stripped(c)
    requires forall c :: c in more <==> c in providers || c in StripAll(record.provided)
    requires forall c | c in more :: more[c] == if c in StripAll(record.provided) then Strip(record.id) else providers[c]
    ensures IndexOf(raw + [record], components[Strip(record.id) := Filed(record)], more)
  {
    FiledGrows(raw, record, components);
    IndexedMore(components, providers, more, Strip(record.id), Filed(record));
    hide Strip, Stripped, StripAll, Indexed, FiledUnder;
  }

  lemma FiledCarries(record: RawComponent)
    ensures Carries(Filed(record), record)
  {
  }

  lemma FiledGrows(raw: seq<RawComponent>, record: RawComponent, components: map<string, RuntimeComponent>)
    requires FiledUnder(raw, components) && Strip(record.id) !in components
    ensures FiledUnder(raw + [record], components[Strip(record.id) := Filed(record)])
  {
    var all, grown := raw + [record], components[Strip(record.id) := Filed(record)];
    FiledCarries(record);
    hide Strip, StripAll, Filed, Carries;
    assert forall i | 0 <= i < |raw| :: all[i] == raw[i] && Strip(raw[i].id) in components;
    forall k | k in grown ensures exists i :: 0 <= i < |all| && Strip(all[i].id) == k {
      if k in components {
        var i :| 0 <= i < |raw| && Strip(raw[i].id) == k;
        assert Strip(all[i].id) == k;
      } else {
        assert Strip(all[|raw|].id) == k;
      }
    }
  }

  lemma IndexedMore(components: map<string, RuntimeComponent>, providers: map<string, string>, more: map<string, string>,
                    id: string, component: RuntimeComponent)
    requires Indexed(components, providers) && id !in components
    requires forall c | c in component.provided :: c !in providers && Stripped(c)
    requires forall c :: c in more <==> c in providers || c in component.provided
    requires forall c | c in more :: more[c] == if c in component.provided then id else providers[c]
    ensures Indexed(components[id := component], more)
  {
    hide Stripped;
  }

  /** A capability may have only one provider. */
  method ClaimCapabilities(providers: map<string, string>, provided: seq<string>, id: string)
    returns (result: Result<map<string, string>>)
    requires forall i, j | 0 <= i < j < |provided| :: provided[i] != provided[j]
    requires forall i | 0 <= i < |provided| :: Stripped(provided[i])
    ensures result.Ok? <==> forall c | c in provided :: c !in providers
    ensures result.Ok? ==> forall c :: c in result.value <==> c in providers || c in provided
    ensures result.Ok? ==> forall c | c in result.value :: result.value[c] == if c in provided then id else providers[c]
    ensures result.Ok? ==> forall c | c in provided :: Stripped(c)
    ensures result.Err? ==> result.error == "ambiguous_runtime_provider"
  {
    var more := providers;
    for n := 0 to |provided|
      invariant forall c | c in provided[..n] :: c !in providers && Stripped(c)
      invariant forall c :: c in more <==> c in providers || c in provided[..n]
      invariant forall c | c in more :: more[c] == if c in provided[..n] then id else providers[c]
    {
      var c := provided[n];
      assert provided[..n + 1] == provided[..n] + [c];
      assert c !in provided[..n] && c in provided;
      if c in more {
        return Err("ambiguous_runtime_provider");
      }
      more := more[c := id];
    }
    assert provided[..|provided|] == provided;
    return Ok(more);
  }

  // ----------------------------------------------------------------- closure

  /** What a capability leads to: the component that provides it, if there is one. */
  datatype Node = Component(id: string) | Unprovided(capability: string)

  function Target(providers: map<string, string>, capability: string): Node {
    if capability in providers then Component(providers[capability]) else Unprovided(capability)
  }

  function Targets(providers: map<string, string>, capabilities: seq<string>): (targets: seq<Node>)
    ensures |targets| == |capabilities|
    ensures forall i | 0 <= i < |capabilities| :: targets[i] == Target(providers, capabilities[i])
  {
    seq(|capabilities|, i requires 0 <= i < |capabilities| => Target(providers, capabilities[i]))
  }

  /** Which components a component needs. */
  function ComponentNeeds(components: map<string, RuntimeComponent>, providers: map<string, string>): Graph<Node> {
    map k | k in set id | id in components :: Component(id) :: Targets(providers, components[k.id].needs)
  }

  /** Which capabilities a capability brings along: those that its provider requires. */
  function CapabilityNeeds(components: map<string, RuntimeComponent>, providers: map<string, string>): Graph<string> {
    map c | c in providers && providers[c] in components :: components[providers[c]].needs
  }

  /** The components in the order in which they were selected; a resolved capability has a
      selected provider, and what selected components need is required. */
  ghost predicate Consistent(components: map<string, RuntimeComponent>, providers: map<string, string>,
                             requirements: set<string>, selected: set<string>, resolved: set<string>, order: seq<Node>) {
    && (forall n | n in order :: n.Component? && n.id in selected)
    && (forall k | k in selected :: Component(k) in order && k in components)
    && (forall c | c in resolved :: c in providers && providers[c] in selected)
    && (forall k, c | k in selected && c in components[k].needs :: c in requirements)
  }

  lemma ConsistentSelect(components: map<string, RuntimeComponent>, providers: map<string, string>,
                         requirements: set<string>, selected: set<string>, resolved: set<string>, order: seq<Node>, k: string)
    requires Consistent(components, providers, requirements, selected, resolved, order)
    requires k in components && forall c | c in components[k].needs :: c in requirements
    ensures Consistent(components, providers, requirements, selected + {k}, resolved, order + [Component(k)])
  {
    assert Component(k) in order + [Component(k)];
    assert forall n | n in order :: n in order + [Component(k)];
  }

  lemma ConsistentRequire(components: map<string, RuntimeComponent>, providers: map<string, string>,
                          requirements: set<string>, selected: set<string>, resolved: set<string>, order: seq<Node>, c: string)
    requires Consistent(components, providers, requirements, selected, resolved, order)
    ensures Consistent(components, providers, requirements + {c}, selected, resolved, order)
  {
  }

  lemma GroundedSelect(components: map<string, RuntimeComponent>, before: set<string>, after: set<string>,
                       selected: set<string>, k: string)
    requires k in components
    requires Grounded(components, before + Members(components[k].needs), after, selected)
    ensures Grounded(components, before, after, selected + {k})
    ensures forall c | c in components[k].needs :: c in after
  {
    forall c | c in after && c !in before
      ensures exists j :: j in selected + {k} && j in components && c in components[j].needs
    {
      if c in components[k].needs {
        assert k in selected + {k};
      } else {
        var j :| j in selected && j in components && c in components[j].needs;
        assert j in selected + {k};
      }
    }
  }

  lemma GroundedOn(components: map<string, RuntimeComponent>, first: set<string>, middle: set<string>, last: set<string>,
                   selected: set<string>, more: set<string>, c: string)
    requires Grounded(components, first, middle, selected) && Grounded(components, middle + {c}, last, more)
    requires selected <= more
    ensures Grounded(components, first + {c}, last, more)
  {
    forall d | d in last && d !in first + {c}
      ensures exists j :: j in more && j in components && d in components[j].needs
    {
      if d in middle {
        var j :| j in selected && j in components && d in components[j].needs;
        assert j in more;
      }
    }
  }

  lemma SelectedInOrder(components: map<string, RuntimeComponent>, providers: map<string, string>,
                        requirements: set<string>, selected: set<string>, resolved: set<string>, order: seq<Node>, k: string)
    requires Consistent(components, providers, requirements, selected, resolved, order)
    ensures Component(k) in order <==> k in selected
  {
  }

  lemma GroundedSame(components: map<string, RuntimeComponent>, requirements: set<string>, selected: set<string>)
    ensures Grounded(components, requirements, requirements, selected)
  {
  }

  /** Visiting a component, told by the outcome of visiting what it needs. */
  lemma VisitOnce(components: map<string, RuntimeComponent>, providers: map<string, string>, k: string,
                  visiting: set<Node>, done: seq<Node>)
    requires k in components
    ensures var graph, id := ComponentNeeds(components, providers), Component(k);
            var outcome := Visit(graph, id, visiting, done);
            if id in done then outcome == Ordered(done) && Tells(None, outcome)
            else if id in visiting then Tells(Some("runtime_component_cycle"), outcome)
            else
              var inner := VisitAll(graph, Targets(providers, components[k].needs), visiting + {id}, done);
              && |graph.Keys - (visiting + {id})| < |graph.Keys - visiting|
              && (forall error :: Tells(error, inner) <==> Tells(error, outcome))
              && (inner.Ordered? ==> outcome == Ordered(inner.done + [id]))
              && (outcome.Ordered? ==> inner.Ordered?)
  {
    var graph, id := ComponentNeeds(components, providers), Component(k);
    assert id in graph && graph[id] == Targets(providers, components[k].needs);
    if id !in visiting {
      Smaller(graph.Keys, visiting, id);
    }
  }

  lemma TellsSuccess(error: Option<string>, outcome: Outcome<Node>)
    requires Tells(error, outcome)
    ensures error.None? <==> outcome.Ordered?
  {
  }

  function StackOf(visiting: set<string>): set<Node> {
    set k | k in visiting :: Component(k)
  }

  lemma StackMore(visiting: set<string>, k: string)
    ensures StackOf(visiting + {k}) == StackOf(visiting) + {Component(k)}
    ensures Component(k) in StackOf(visiting) <==> k in visiting
  {
  }

  function Members(capabilities: seq<string>): set<string> {
    set c | c in capabilities
  }

  /** The error that goes with the outcome of a search. */
  ghost predicate Tells(error: Option<string>, outcome: Outcome<Node>) {
    match outcome
    case Ordered(_) => error.None?
    case Cycle(_) => error == Some("runtime_component_cycle")
    case Missing(_) => error == Some("unknown_runtime_requirement")
  }

  /** Whatever was added to the requirements is required by a selected component. */
  ghost predicate Grounded(components: map<string, RuntimeComponent>, before: set<string>, after: set<string>, selected: set<string>) {
    && before <= after
    && forall c | c in after :: c in before || exists k :: k in selected && k in components && c in components[k].needs
  }

  /** The sets that the two functions of the source update while they call each other. */
  class Closure {
    const components: map<string, RuntimeComponent>
    const providers: map<string, string>
    ghost const graph: Graph<Node>
    var requirements: set<string>
    var selected: set<string>
    var visiting: set<string>
    var resolved: set<string>
    ghost var order: seq<Node>

    ghost predicate Valid()
      reads this
    {
      && Indexed(components, providers) && graph == ComponentNeeds(components, providers)
      && Consistent(components, providers, requirements, selected, resolved, order)
    }

    ghost function Stack(): set<Node>
      reads this
    {
      StackOf(visiting)
    }

    constructor (components: map<string, RuntimeComponent>, providers: map<string, string>, requirements: set<string>)
      requires Indexed(components, providers)
      ensures Valid() && this.components == components && this.providers == providers
      ensures this.requirements == requirements && selected == {} && visiting == {} && order == []
    {
      this.components, this.providers, this.requirements := components, providers, requirements;
      graph := ComponentNeeds(components, providers);
      selected, visiting, resolved, order := {}, {}, {}, [];
    }

    method ResolveCapability(c: string) returns (error: Option<string>)
      requires Valid()
      modifies this
      ensures var outcome := Visit(graph, Target(providers, c), old(Stack()), old(order));
              Tells(error, outcome) && (error.None? ==> order == outcome.done)
      ensures error.None? ==> Valid() && visiting == old(visiting) && old(selected) <= selected
      ensures error.None? ==> Grounded(components, old(requirements), requirements, selected)
      decreases |graph.Keys - Stack()|, 1, 0
    {
      if c in resolved {
        return None;
      }
      if c !in providers {
        assert Target(providers, c) !in order && Target(providers, c) !in Stack();
        return Some("unknown_runtime_requirement");
      }
      error := ResolveComponent(providers[c]);
      if error.None? {
        resolved := resolved + {c};
      }
    }

    method ResolveComponent(k: string) returns (error: Option<string>)
      requires Valid() && k in components
      modifies this
      ensures var outcome := Visit(graph, Component(k), old(Stack()), old(order));
              Tells(error, outcome) && (error.None? ==> order == outcome.done)
      ensures error.None? ==> Valid() && visiting == old(visiting) && old(selected) <= selected && k in selected
      ensures error.None? ==> Grounded(components, old(requirements), requirements, selected)
      decreases |graph.Keys - Stack()|, 0, 0
    {
      hide Visit, VisitAll, ComponentNeeds, Targets, Target, Indexed, Consistent, Grounded, StackOf, Members, Tells;
      SelectedInOrder(components, providers, requirements, selected, resolved, order, k);
      StackMore(visiting, k);
      VisitOnce(components, providers, k, Stack(), order);
      GroundedSame(components, requirements, selected);
      if k in selected {
        return None;
      }
      if k in visiting {
        return Some("runtime_component_cycle");
      }
      visiting := visiting + {k};
      ghost var inner := VisitAll(graph, Targets(providers, components[k].needs), Stack(), order);
      error := ResolveAll(components[k].needs);
      TellsSuccess(error, inner);
      if error.None? {
        GroundedSelect(components, old(requirements), requirements, selected, k);
        Select(k);
      }
    }

    method Select(k: string)
      requires Valid() && k in components && forall c | c in components[k].needs :: c in requirements
      modifies this`visiting, this`selected, this`order
      ensures Valid() && visiting == old(visiting) - {k} && selected == old(selected) + {k}
      ensures order == old(order) + [Component(k)]
    {
      ConsistentSelect(components, providers, requirements, selected, resolved, order, k);
      visiting := visiting - {k};
      selected := selected + {k};
      order := order + [Component(k)];
    }

    method Require(c: string)
      requires Valid()
      modifies this`requirements
      ensures Valid() && requirements == old(requirements) + {c}
    {
      ConsistentRequire(components, providers, requirements, selected, resolved, order, c);
      requirements := requirements + {c};
    }

    /** The requirements of one component in turn; each is added, then resolved. */
    method ResolveAll(capabilities: seq<string>) returns (error: Option<string>)
      requires Valid()
      modifies this
      ensures var outcome := VisitAll(graph, Targets(providers, capabilities), old(Stack()), old(order));
              Tells(error, outcome) && (error.None? ==> order == outcome.done)
      ensures error.None? ==> Valid() && visiting == old(visiting) && old(selected) <= selected
      ensures error.None? ==> Grounded(components, old(requirements) + Members(capabilities), requirements, selected)
      decreases |graph.Keys - Stack()|, 2, 0
    {
      hide Visit, VisitAll, ComponentNeeds, Targets, Target, Indexed, Consistent, Grounded, StackOf, Members, Tells, Valid;
      ghost var whole := VisitAll(graph, Targets(providers, capabilities), Stack(), order);
      ghost var claimed := requirements;
      assert capabilities[0..] == capabilities;
      GroundedSame(components, requirements, selected);
      MembersNone(requirements, capabilities);
      for i := 0 to |capabilities|
        invariant Valid() && visiting == old(visiting) && old(selected) <= selected
        invariant whole == VisitAll(graph, Targets(providers, capabilities[i..]), Stack(), order)
        invariant Grounded(components, claimed, requirements, selected)
        invariant claimed == old(requirements) + Members(capabilities[..i])
      {
        var c := capabilities[i];
        ghost var before, chosen := requirements, selected;
        NextTarget(graph, providers, capabilities, i, Stack(), order);
        ghost var first := Visit(graph, Target(providers, c), Stack(), order);
        Require(c);
        error := ResolveCapability(c);
        TellsSuccess(error, first);
        if error.Some? {
          return;
        }
        GroundedOn(components, claimed, before, requirements, chosen, selected, c);
        MembersNext(old(requirements), capabilities, i);
        claimed := claimed + {c};
      }
      assert capabilities[..|capabilities|] == capabilities && capabilities[|capabilities|..] == [];
      NoTargets(graph, providers, Stack(), order);
      error := None;
    }
  }

  lemma MembersNone(base: set<string>, capabilities: seq<string>)
    ensures base == base + Members(capabilities[..0])
  {
  }

  lemma MembersNext(base: set<string>, capabilities: seq<string>, i: nat)
    requires i < |capabilities|
    ensures base + Members(capabilities[..i + 1]) == base + Members(capabilities[..i]) + {capabilities[i]}
  {
    assert capabilities[..i + 1] == capabilities[..i] + [capabilities[i]];
  }

  lemma NoTargets(graph: Graph<Node>, providers: map<string, string>, stack: set<Node>, order: seq<Node>)
    ensures VisitAll(graph, Targets(providers, []), stack, order) == Ordered(order)
    ensures Tells(None, Ordered(order))
  {
  }

  lemma NextTarget(graph: Graph<Node>, providers: map<string, string>, capabilities: seq<string>, i: nat, stack: set<Node>,
                   order: seq<Node>)
    requires i < |capabilities|
    ensures var first := Visit(graph, Target(providers, capabilities[i]), stack, order);
            var all := VisitAll(graph, Targets(providers, capabilities[i..]), stack, order);
            if first.Ordered? then all == VisitAll(graph, Targets(providers, capabilities[i + 1..]), stack, first.done)
            else !all.Ordered? && forall error :: Tells(error, first) <==> Tells(error, all)
  {
    var targets := Targets(providers, capabilities[i..]);
    assert targets[0] == Target(providers, capabilities[i]) && targets[1..] == Targets(providers, capabilities[i + 1..]);
  }

  // ------------------------------------------------------------------ result

  /** What the source promises: the least set of capabilities that holds the inputs and
      whatever the provider of one of its members needs, and exactly their providers. */
  ghost predicate LeastCapabilities(components: map<string, RuntimeComponent>, providers: map<string, string>,
                                    inputs: seq<string>, capabilities: set<string>, selected: set<string>) {
    && LeastClosed(CapabilityNeeds(components, providers), inputs, capabilities)
    && (forall c | c in capabilities :: c in providers && providers[c] in selected)
    && (forall k | k in selected :: exists c :: c in capabilities && c in providers && providers[c] == k)
  }

  /** The components that a closed set of capabilities leads to form a closed set. */
  function Led(providers: map<string, string>, capabilities: set<string>): set<Node> {
    set c | c in capabilities :: Target(providers, c)
  }

  lemma NeedIsTarget(components: map<string, RuntimeComponent>, providers: map<string, string>, k: string, c: string)
    requires k in components && c in components[k].needs
    ensures Component(k) in ComponentNeeds(components, providers)
    ensures Target(providers, c) in ComponentNeeds(components, providers)[Component(k)]
  {
    var targets := Targets(providers, components[k].needs);
    var j :| 0 <= j < |components[k].needs| && components[k].needs[j] == c;
    assert targets[j] == Target(providers, c) && targets[j] in targets;
  }

  lemma TargetIsNeed(components: map<string, RuntimeComponent>, providers: map<string, string>, n: Node, m: Node)
    returns (d: string)
    requires n in ComponentNeeds(components, providers) && m in ComponentNeeds(components, providers)[n]
    ensures n.Component? && n.id in components && d in components[n.id].needs && m == Target(providers, d)
  {
    var targets := Targets(providers, components[n.id].needs);
    var i :| 0 <= i < |targets| && targets[i] == m;
    d := components[n.id].needs[i];
  }

  lemma LedIsClosed(components: map<string, RuntimeComponent>, providers: map<string, string>, capabilities: set<string>)
    requires ClosedSet(CapabilityNeeds(components, providers), capabilities)
    ensures ClosedSet(ComponentNeeds(components, providers), Led(providers, capabilities))
  {
    var graph, led := ComponentNeeds(components, providers), Led(providers, capabilities);
    hide ComponentNeeds;
    forall n, m | n in led && n in graph && m in graph[n] ensures m in led {
      var c :| c in capabilities && Target(providers, c) == n;
      var d := TargetIsNeed(components, providers, n, m);
      assert c in CapabilityNeeds(components, providers) && d in CapabilityNeeds(components, providers)[c];
      assert d in capabilities && m == Target(providers, d);
    }
  }

  lemma InputIsTarget(providers: map<string, string>, inputs: seq<string>, c: string)
    requires c in inputs
    ensures Target(providers, c) in Targets(providers, inputs)
  {
    var i :| 0 <= i < |inputs| && inputs[i] == c;
    assert Targets(providers, inputs)[i] in Targets(providers, inputs);
  }

  /** Everything required leads to a selected component. */
  lemma RequiredIsSelected(components: map<string, RuntimeComponent>, providers: map<string, string>, inputs: seq<string>,
                           requirements: set<string>, selected: set<string>, order: seq<Node>, c: string)
    requires Topological(ComponentNeeds(components, providers), order)
    requires Consistent(components, providers, requirements, selected, {}, order)
    requires Grounded(components, Members(inputs), requirements, selected)
    requires forall n | n in Targets(providers, inputs) :: n in order
    requires c in requirements
    ensures Target(providers, c) in order && c in providers && providers[c] in selected
  {
    hide ComponentNeeds, Targets;
    if c in inputs {
      InputIsTarget(providers, inputs, c);
    } else {
      var k :| k in selected && k in components && c in components[k].needs;
      var i :| 0 <= i < |order| && order[i] == Component(k);
      NeedIsTarget(components, providers, k, c);
      assert Target(providers, c) in order[..i];
    }
  }

  lemma ClosureIsLeast(components: map<string, RuntimeComponent>, providers: map<string, string>, inputs: seq<string>,
                       requirements: set<string>, selected: set<string>, order: seq<Node>)
    requires Topological(ComponentNeeds(components, providers), order)
    requires Consistent(components, providers, requirements, selected, {}, order)
    requires Grounded(components, Members(inputs), requirements, selected)
    requires LeastClosed(ComponentNeeds(components, providers), Targets(providers, inputs), set n | n in order)
    ensures LeastCapabilities(components, providers, inputs, requirements, selected)
  {
    var graph := CapabilityNeeds(components, providers);
    forall c | c in requirements ensures c in providers && providers[c] in selected {
      RequiredIsSelected(components, providers, inputs, requirements, selected, order, c);
    }
    forall other: set<string> | ClosedSet(graph, other) && (forall c | c in inputs :: c in other) ensures requirements <= other {
      SelectedIsLed(components, providers, inputs, requirements, selected, order, other);
    }
    assert ClosedSet(graph, requirements);
    assert forall c | c in inputs :: c in Members(inputs);
    SelectedIsLed(components, providers, inputs, requirements, selected, order, requirements);
  }

  /** No closed set with the inputs can do without what was selected and required. */
  lemma SelectedIsLed(components: map<string, RuntimeComponent>, providers: map<string, string>, inputs: seq<string>,
                      requirements: set<string>, selected: set<string>, order: seq<Node>, other: set<string>)
    requires Consistent(components, providers, requirements, selected, {}, order)
    requires Grounded(components, Members(inputs), requirements, selected)
    requires LeastClosed(ComponentNeeds(components, providers), Targets(providers, inputs), set n | n in order)
    requires ClosedSet(CapabilityNeeds(components, providers), other) && forall c | c in inputs :: c in other
    ensures requirements <= other
    ensures forall k | k in selected :: exists c :: c in other && c in providers && providers[c] == k
  {
    LedIsClosed(components, providers, other);
    forall n | n in Targets(providers, inputs) ensures n in Led(providers, other) {
      var i :| 0 <= i < |inputs| && Targets(providers, inputs)[i] == n;
      assert inputs[i] in inputs;
    }
    forall k | k in selected ensures exists c :: c in other && c in providers && providers[c] == k {
      assert Component(k) in Led(providers, other);
    }
    forall c | c in requirements ensures c in other {
      if c !in inputs {
        var k :| k in selected && k in components && c in components[k].needs;
        var d :| d in other && d in providers && providers[d] == k;
        assert c in CapabilityNeeds(components, providers)[d];
      }
    }
  }

  /** The capabilities and components that `requirements` lead to. It fails if and only if a
      needed capability has no provider or the components reached need each other in a ring. */
  method CloseRuntime(requirements: set<string>, components: map<string, RuntimeComponent>, providers: map<string, string>)
    returns (result: Result<(set<string>, set<string>)>)
    requires Indexed(components, providers)
    ensures var graph, roots := ComponentNeeds(components, providers), Targets(providers, Ascending(requirements));
            && (result.Ok? <==> !ReachesCycle(graph, roots) && !ReachesMissing(graph, roots))
            && (result.Err? ==>
                  (result.error == "unknown_runtime_requirement" && ReachesMissing(graph, roots))
                  || (result.error == "runtime_component_cycle" && ReachesCycle(graph, roots)))
    ensures result.Ok? ==>
              LeastCapabilities(components, providers, Ascending(requirements), result.value.0, result.value.1)
  {
    var inputs := Ascending(requirements);
    var closure := new Closure(components, providers, requirements);
    ghost var graph, roots := closure.graph, Targets(providers, inputs);
    OrderIsRight(graph, roots);
    NoStack(components, providers, requirements, inputs);
    hide Consistent, Grounded, Members, StackOf, Targets, ComponentNeeds, LeastClosed, Topological, ReachesCycle,
         ReachesMissing, VisitAll, Indexed, LeastCapabilities;
    var error := closure.ResolveAll(inputs);
    if error.Some? {
      return Err(error.value);
    }
    Forgotten(components, providers, closure.requirements, closure.selected, closure.resolved, closure.order);
    ClosureIsLeast(components, providers, inputs, closure.requirements, closure.selected, closure.order);
    return Ok((closure.requirements, closure.selected));
  }

  lemma NoStack(components: map<string, RuntimeComponent>, providers: map<string, string>, requirements: set<string>,
                inputs: seq<string>)
    requires forall t :: t in inputs <==> t in requirements
    ensures StackOf({}) == {} && requirements + Members(inputs) == Members(inputs)
  {
  }

  lemma Forgotten(components: map<string, RuntimeComponent>, providers: map<string, string>,
                  requirements: set<string>, selected: set<string>, resolved: set<string>, order: seq<Node>)
    requires Consistent(components, providers, requirements, selected, resolved, order)
    ensures Consistent(components, providers, requirements, selected, {}, order)
  {
  }
}
