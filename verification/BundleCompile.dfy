/** Compiling a bundle plan: when it can be compiled, and what is then in it. */
module BundleCompile {
  import opened Outcomes
  import opened Text
  import opened TextSort
  import opened DepthFirst
  import opened ComponentSelection
  import opened RuntimeClosure
  import opened BundlePlan

  // ---------------------------------------------------- selected components

  function Manifests(catalog: Catalog, ids: seq<string>): (manifests: seq<Manifest>)
    requires forall i | 0 <= i < |ids| :: ids[i] in catalog
    ensures |manifests| == |ids|
    ensures forall i | 0 <= i < |ids| :: manifests[i] == catalog[ids[i]]
  {
    seq(|ids|, i requires 0 <= i < |ids| => catalog[ids[i]])
  }

  /** The components of a compiled agent. */
  ghost predicate Compiled(catalog: Catalog, ids: seq<string>) {
    Frozen(catalog) && Topological(Needs(catalog), ids)
  }

  lemma {:induction false} ByIdAt(catalog: Catalog, ids: seq<string>, id: string)
    requires forall i | 0 <= i < |ids| :: ids[i] in catalog && Strip(catalog[ids[i]].componentId) == ids[i]
    ensures var byId := ById(Manifests(catalog, ids));
            (id in byId <==> id in ids) && (id in ids ==> id in catalog && byId[id] == catalog[id])
    decreases |ids|
  {
    hide Strip;
    if ids != [] {
      var n, manifests := |ids| - 1, Manifests(catalog, ids);
      ByIdAt(catalog, ids[..n], id);
      assert manifests[..n] == Manifests(catalog, ids[..n]) && manifests[n] == catalog[ids[n]];
      assert ids == ids[..n] + [ids[n]];
    }
  }

  lemma ByIdOfCompiled(catalog: Catalog, ids: seq<string>)
    requires Frozen(catalog) && forall i | 0 <= i < |ids| :: ids[i] in catalog
    ensures forall id :: id in ById(Manifests(catalog, ids)) <==> id in ids
    ensures forall id | id in ids :: id in catalog && ById(Manifests(catalog, ids))[id] == catalog[id]
  {
    hide ById, Manifests, Strip;
    forall id ensures (id in ById(Manifests(catalog, ids)) <==> id in ids)
      && (id in ids ==> id in catalog && ById(Manifests(catalog, ids))[id] == catalog[id])
    {
      ByIdAt(catalog, ids, id);
    }
  }

  /** A list of stripped, non-blank texts is trimmed as it stands. */
  lemma {:induction false} TrimmedClean(texts: seq<string>)
    requires forall i | 0 <= i < |texts| :: texts[i] != "" && Stripped(texts[i])
    ensures Trimmed(texts) == texts
    decreases |texts|
  {
    hide Stripped;
    if texts != [] {
      var n := |texts| - 1;
      TrimmedClean(texts[..n]);
      assert texts == texts[..n] + [texts[n]];
    }
  }

  lemma NeedsAreClean(catalog: Catalog, id: string)
    requires Frozen(catalog) && id in catalog
    ensures Trimmed(catalog[id].needs) == catalog[id].needs
  {
    forall i | 0 <= i < |catalog[id].needs| ensures catalog[id].needs[i] != "" && Stripped(catalog[id].needs[i]) {
      var needed := catalog[id].needs[i];
      assert needed in catalog[id].needs && needed in catalog;
      assert needed == Strip(catalog[needed].componentId);
    }
    TrimmedClean(catalog[id].needs);
  }

  /** The application's graph is the catalog's, cut down to the selected components. */
  lemma ApplicationOrder(catalog: Catalog, ids: seq<string>)
    requires Compiled(catalog, ids)
    ensures forall i | 0 <= i < |ids| :: ids[i] in catalog
    ensures Topological(ApplicationNeeds(Manifests(catalog, ids)), ids)
  {
    var graph := ApplicationNeeds(Manifests(catalog, ids));
    ByIdOfCompiled(catalog, ids);
    forall i | 0 <= i < |ids| ensures ids[i] in graph && forall n | n in graph[ids[i]] :: n in ids[..i] {
      assert ids[i] in ids;
      NeedsAreClean(catalog, ids[i]);
      assert graph[ids[i]] == Needs(catalog)[ids[i]];
    }
  }

  /** On the components of a compiled agent the application's closure finds neither an
      unknown component nor a cycle. */
  lemma ApplicationNeverFails(catalog: Catalog, ids: seq<string>, roots: seq<string>)
    requires Compiled(catalog, ids) && forall id | id in roots :: id in ids
    requires forall i | 0 <= i < |ids| :: ids[i] in catalog
    ensures Order(ApplicationNeeds(Manifests(catalog, ids)), roots).Ordered?
    ensures forall id | id in Order(ApplicationNeeds(Manifests(catalog, ids)), roots).done :: id in ids
  {
    ApplicationOrder(catalog, ids);
    InsideOrder(ApplicationNeeds(Manifests(catalog, ids)), ids, roots);
  }

  lemma InsideOrder(graph: Graph<string>, ids: seq<string>, roots: seq<string>)
    requires Topological(graph, ids) && forall id | id in roots :: id in ids
    ensures Order(graph, roots).Ordered?
    ensures forall id | id in Order(graph, roots).done :: id in ids
  {
    OrderedHasNoCycle(graph, roots, ids);
    OrderIsRight(graph, roots);
    TopologicalClosed(graph, ids);
    var members := set id | id in ids;
    var least := set n | n in Order(graph, roots).done;
    hide Order, Topological, ReachesCycle, ReachesMissing;
    assert ClosedSet(graph, members);
    assert forall id | id in roots :: id in members;
    assert least <= members;
    assert forall id | id in Order(graph, roots).done :: id in least;
  }

  lemma OwnedAreSelected(catalog: Catalog, ids: seq<string>, distribution: string)
    requires Frozen(catalog) && forall i | 0 <= i < |ids| :: ids[i] in catalog
    ensures forall id | id in OwnedIds(Manifests(catalog, ids), distribution) :: id in ids
  {
  }

  // ------------------------------------------------------------------- plan

  datatype Plan = Plan(
    componentIds: seq<string>,
    projectDistributions: seq<string>,
    registrationEntries: seq<string>,
    application: Application,
    runtimeCapabilities: seq<string>,
    runtimeComponents: seq<string>)

  /** The application is part of the project. */
  ghost predicate WithinProject(plan: Plan) {
    && (forall d | d in plan.application.distributions :: d in plan.projectDistributions)
    && (forall r | r in plan.application.requirements :: r in plan.runtimeCapabilities)
    && (forall e | e in plan.application.entries :: e in plan.registrationEntries)
  }

  lemma {:induction false} PickedAreSelected(catalog: Catalog, ids: seq<string>, done: seq<string>)
    requires Frozen(catalog) && (forall i | 0 <= i < |ids| :: ids[i] in catalog) && forall id | id in done :: id in ids
    ensures forall m | m in Picked(ById(Manifests(catalog, ids)), done) :: m in Manifests(catalog, ids)
    decreases |done|
  {
    hide Frozen, ById, Manifests, Strip;
    if done != [] {
      var n := |done| - 1;
      assert forall id | id in done[..n] :: id in done;
      PickedAreSelected(catalog, ids, done[..n]);
      assert done[n] in done && done[n] in ids;
      OneIsSelected(catalog, ids, done[n]);
    }
  }

  lemma OneIsSelected(catalog: Catalog, ids: seq<string>, id: string)
    requires Frozen(catalog) && (forall i | 0 <= i < |ids| :: ids[i] in catalog) && id in ids
    ensures id in ById(Manifests(catalog, ids)) ==> ById(Manifests(catalog, ids))[id] in Manifests(catalog, ids)
  {
    ByIdOfCompiled(catalog, ids);
    hide Frozen, ById, Strip;
    var i :| 0 <= i < |ids| && ids[i] == id;
    assert Manifests(catalog, ids)[i] == catalog[id];
  }

  lemma PartialLists(part: seq<Manifest>, all: seq<Manifest>)
    requires forall m | m in part :: m in all
    ensures forall t | t in Unique(Trimmed(DistributionNames(part))) :: t in Unique(DistributionNames(all))
    ensures forall t | t in Unique(Trimmed(EntryTexts(part))) :: t in Unique(Trimmed(EntryTexts(all)))
  {
    forall t | t in Unique(Trimmed(DistributionNames(part))) ensures t in DistributionNames(all) {
      TrimmedMember(DistributionNames(part), t);
      var i :| 0 <= i < |part| && StripAll(DistributionNames(part))[i] == t;
      assert part[i] in part;
      var j :| 0 <= j < |all| && all[j] == part[i];
      assert DistributionNames(all)[j] == t;
    }
    forall t | t in Unique(Trimmed(EntryTexts(part))) ensures t in Trimmed(EntryTexts(all)) {
      TrimmedMember(EntryTexts(part), t);
      var i :| 0 <= i < |part| && StripAll(EntryTexts(part))[i] == t;
      assert part[i] in part;
      var j :| 0 <= j < |all| && all[j] == part[i];
      assert StripAll(EntryTexts(all))[j] == t;
      TrimmedMember(EntryTexts(all), t);
    }
  }

  function RawRequirements(components: seq<Manifest>): set<string> {
    if components == [] then {}
    else
      var last := components[|components| - 1].runtimeRequirements;
      RawRequirements(components[..|components| - 1]) + (set r | r in last)
  }

  lemma {:induction false} RawMember(components: seq<Manifest>, m: Manifest, r: string)
    requires m in components && r in m.runtimeRequirements
    ensures r in RawRequirements(components)
    decreases |components|
  {
    var n := |components| - 1;
    if components[n] != m {
      assert components == components[..n] + [components[n]];
      RawMember(components[..n], m, r);
    }
  }

  lemma {:induction false} RequirementMember(components: seq<Manifest>, r: string) returns (m: Manifest, raw: string)
    requires r in RequirementsOf(components)
    ensures m in components && raw in m.runtimeRequirements && Strip(raw) == r
    decreases |components|
  {
    hide Strip, Stripped;
    var n := |components| - 1;
    assert components == components[..n] + [components[n]];
    if r in RequirementsOf(components[..n]) {
      m, raw := RequirementMember(components[..n], r);
    } else {
      m := components[n];
      raw := RawOf(m.runtimeRequirements, r);
    }
  }

  lemma RawOf(texts: seq<string>, r: string) returns (raw: string)
    requires r in Trimmed(texts)
    ensures raw in texts && Strip(raw) == r
  {
    hide Strip, Stripped;
    TrimmedMember(texts, r);
    var i :| 0 <= i < |texts| && StripAll(texts)[i] == r;
    raw := texts[i];
  }

  /** Requirements that were all provided for are stripped, so trimming changes none. */
  lemma RequirementsInside(part: seq<Manifest>, all: seq<Manifest>, capabilities: set<string>)
    requires forall m | m in part :: m in all
    requires RawRequirements(all) <= capabilities && forall c | c in capabilities :: Stripped(c)
    ensures RequirementsOf(part) <= capabilities
  {
    forall r | r in RequirementsOf(part) ensures r in capabilities {
      var m, raw := RequirementMember(part, r);
      RawMember(all, m, raw);
      assert Strip(raw) == raw;
    }
  }

  /** The parts of a plan that concern its application, compiled from a selection. */
  lemma PlanIsWithin(catalog: Catalog, ids: seq<string>, owner: string, done: seq<string>, capabilities: set<string>, plan: Plan)
    requires Frozen(catalog) && forall i | 0 <= i < |ids| :: ids[i] in catalog
    requires forall id | id in done :: id in ids
    requires RawRequirements(Manifests(catalog, ids)) <= capabilities && forall c | c in capabilities :: Stripped(c)
    requires plan.projectDistributions == Unique(DistributionNames(Manifests(catalog, ids)))
    requires plan.registrationEntries == Unique(Trimmed(EntryTexts(Manifests(catalog, ids))))
    requires plan.application
          == Projected(ById(Manifests(catalog, ids)), OwnedIds(Manifests(catalog, ids), owner), done)
    requires plan.runtimeCapabilities == Ascending(capabilities)
    ensures WithinProject(plan)
  {
    var components := Manifests(catalog, ids);
    var byId, owned := ById(components), OwnedIds(components, owner);
    PickedAreSelected(catalog, ids, done);
    PickedAreSelected(catalog, ids, Kept(done, owned));
    hide Frozen, Manifests, ById, OwnedIds, Picked, RequirementsOf, RawRequirements, Trimmed, Unique, DistributionNames,
         EntryTexts, Stripped, Kept, WithinProject;
    PartsWithin(Picked(byId, done), Picked(byId, Kept(done, owned)), components, capabilities, plan);
  }

  /** A plan whose application is made of some of the components is within its project. */
  lemma PartsWithin(part: seq<Manifest>, own: seq<Manifest>, all: seq<Manifest>, capabilities: set<string>, plan: Plan)
    requires (forall m | m in part :: m in all) && (forall m | m in own :: m in all)
    requires RawRequirements(all) <= capabilities && forall c | c in capabilities :: Stripped(c)
    requires plan.projectDistributions == Unique(DistributionNames(all))
    requires plan.registrationEntries == Unique(Trimmed(EntryTexts(all)))
    requires plan.application.requirements == Ascending(RequirementsOf(own))
    requires plan.application.distributions == Unique(Trimmed(DistributionNames(part)))
    requires plan.application.entries == Unique(Trimmed(EntryTexts(own)))
    requires plan.runtimeCapabilities == Ascending(capabilities)
    ensures WithinProject(plan)
  {
    hide RequirementsOf, RawRequirements, Trimmed, Unique, DistributionNames, EntryTexts, Stripped, Ascending;
    PartialLists(part, all);
    PartialLists(own, all);
    RequirementsInside(own, all, capabilities);
  }

  /** The faults that closing an application finds only in components of unknown origin. */
  predicate ApplicationFault(error: string) {
    error in ["unknown_application_component", "application_dependency_cycle", "missing_application_distribution"]
  }

  lemma OtherFaults()
    ensures !ApplicationFault("unknown_component") && !ApplicationFault("component_conflict")
    ensures !ApplicationFault("dependency_cycle") && !ApplicationFault("missing_distribution_owner")
    ensures !ApplicationFault("invalid_runtime_requirement") && !ApplicationFault("invalid_application_profile")
  {
  }

  method CollectRequirements(always: seq<string>, components: seq<Manifest>) returns (requirements: set<string>)
    ensures requirements == (set c | c in always) + RawRequirements(components)
  {
    requirements := set c | c in always;
    for i := 0 to |components|
      invariant requirements == (set c | c in always) + RawRequirements(components[..i])
    {
      assert components[..i + 1][..i] == components[..i];
      requirements := requirements + (set r | r in components[i].runtimeRequirements);
    }
    assert components[..|components|] == components;
  }

  // ------------------------------------------------- what is compiled, and when

  /** The selected components, each after all those it needs. */
  ghost function IdsIn(catalog: Catalog, selected: set<string>): seq<string> {
    match Order(SortedNeeds(catalog), Ascending(selected))
    case Ordered(done) => done
    case _ => []
  }

  ghost function ComponentsIn(catalog: Catalog, selected: set<string>): seq<Manifest> {
    var ids := IdsIn(catalog, selected);
    if forall i | 0 <= i < |ids| :: ids[i] in catalog then Manifests(catalog, ids) else []
  }

  /** What the components of the application's own distribution need, themselves included. */
  function ClosureOf(components: seq<Manifest>): seq<string> {
    match Order(ApplicationNeeds(components), Ascending(OwnedIds(components, Owner(components))))
    case Ordered(done) => done
    case _ => []
  }

  function ApplicationOf(components: seq<Manifest>): Application {
    Projected(ById(components), OwnedIds(components, Owner(components)), ClosureOf(components))
  }

  /** A selection can be compiled: its references are known, nothing in it conflicts or needs
      itself, every component has a distribution, and one is a profile. */
  ghost predicate Selectable(refs: seq<string>, catalog: Catalog, selected: set<string>) {
    && (forall id | id in refs :: id in catalog)
    && !Conflicting(catalog, selected) && !ReachesCycle(Needs(catalog), refs)
    && "" !in DistributionNames(ComponentsIn(catalog, selected))
    && HasOneProfile(ComponentsIn(catalog, selected))
  }

  /** What is demanded can be provided. */
  ghost predicate Providable(demanded: set<string>, components: map<string, RuntimeComponent>, providers: map<string, string>) {
    var graph, roots := ComponentNeeds(components, providers), Targets(providers, Ascending(demanded));
    !ReachesCycle(graph, roots) && !ReachesMissing(graph, roots)
  }

  /** The plan's lists, each told from the selected components and the runtime records. */
  ghost predicate Compiles(plan: Plan, catalog: Catalog, always: seq<string>, selected: set<string>,
                           index: (map<string, RuntimeComponent>, map<string, string>)) {
    var components := ComponentsIn(catalog, selected);
    && plan.componentIds == IdsIn(catalog, selected) && Ids(plan.componentIds) == selected
    && plan.projectDistributions == Unique(DistributionNames(components))
    && plan.registrationEntries == Unique(Trimmed(EntryTexts(components)))
    && plan.application == ApplicationOf(components)
    && LeastCapabilities(index.0, index.1, Ascending(Demanded(always, components)), Ids(plan.runtimeCapabilities),
                         Ids(plan.runtimeComponents))
    && plan.runtimeCapabilities == Ascending(Ids(plan.runtimeCapabilities))
    && plan.runtimeComponents == Ascending(Ids(plan.runtimeComponents))
  }

  lemma {:induction false} PickedMember(byId: map<string, Manifest>, ids: seq<string>, m: Manifest)
    ensures m in Picked(byId, ids) <==> exists id :: id in ids && id in byId && byId[id] == m
    decreases |ids|
  {
    if ids != [] {
      var n := |ids| - 1;
      PickedMember(byId, ids[..n], m);
      assert ids == ids[..n] + [ids[n]];
    }
  }

  lemma {:induction false} RequirementsMember(components: seq<Manifest>, r: string)
    ensures r in RequirementsOf(components) <==> exists m :: m in components && r in Trimmed(m.runtimeRequirements)
    decreases |components|
  {
    hide Trimmed;
    if components != [] {
      var n := |components| - 1;
      RequirementsMember(components[..n], r);
      assert components == components[..n] + [components[n]];
    }
  }

  lemma NameMember(components: seq<Manifest>, d: string)
    ensures d in Unique(Trimmed(DistributionNames(components)))
       <==> d != "" && exists m :: m in components && Strip(m.distribution) == d
  {
    hide Strip, Stripped, Trimmed, Unique;
    TrimmedMember(DistributionNames(components), d);
    if d in StripAll(DistributionNames(components)) {
      var i :| 0 <= i < |components| && StripAll(DistributionNames(components))[i] == d;
      StripTwice(components[i].distribution);
      assert components[i] in components;
    }
    if m :| m in components && Strip(m.distribution) == d {
      var i :| 0 <= i < |components| && components[i] == m;
      StripTwice(m.distribution);
      assert StripAll(DistributionNames(components))[i] == d;
    }
  }

  lemma StripTwice(s: string)
    ensures Strip(Strip(s)) == Strip(s)
  {
  }

  lemma EntryMember(components: seq<Manifest>, e: string)
    ensures e in Unique(Trimmed(EntryTexts(components)))
       <==> e != "" && exists m :: m in components && Strip(m.registrationEntry) == e
  {
    hide Strip, Stripped, Trimmed, Unique;
    TrimmedMember(EntryTexts(components), e);
    if e in StripAll(EntryTexts(components)) {
      var i :| 0 <= i < |components| && StripAll(EntryTexts(components))[i] == e;
      assert components[i] in components;
    }
    if m :| m in components && Strip(m.registrationEntry) == e {
      var i :| 0 <= i < |components| && components[i] == m;
      assert StripAll(EntryTexts(components))[i] == e;
    }
  }

  /** Whether a component belongs to the distribution. */
  predicate Belongs(catalog: Catalog, id: string, owner: string) {
    id in catalog && Strip(catalog[id].distribution) == owner
  }

  /** The components that the application owns, as the projection picks them. */
  ghost predicate OwnList(own: seq<Manifest>, catalog: Catalog, ids: seq<string>, owner: string) {
    forall m :: m in own <==> exists id :: id in ids && Belongs(catalog, id, owner) && catalog[id] == m
  }

  ghost predicate NeededList(all: seq<Manifest>, catalog: Catalog, needed: seq<string>) {
    forall m :: m in all <==> exists id :: id in needed && id in catalog && catalog[id] == m
  }

  lemma PickedLists(catalog: Catalog, ids: seq<string>)
    requires Compiled(catalog, ids) && forall i | 0 <= i < |ids| :: ids[i] in catalog
    ensures var components := Manifests(catalog, ids);
            var byId, owner, needed := ById(components), Owner(components), ClosureOf(components);
            && OwnList(Picked(byId, Kept(needed, OwnedIds(components, owner))), catalog, ids, owner)
            && NeededList(Picked(byId, needed), catalog, needed)
  {
    var components := Manifests(catalog, ids);
    var owner, needed := Owner(components), ClosureOf(components);
    ClosureIsLeastSet(catalog, ids);
    ByIdOfCompiled(catalog, ids);
    OwnedAre(catalog, ids, owner);
    hide *;
    ListsPicked(ById(components), needed, OwnedIds(components, owner), catalog, ids, owner);
  }

  lemma ListsPicked(byId: map<string, Manifest>, needed: seq<string>, owned: set<string>, catalog: Catalog, ids: seq<string>,
                    owner: string)
    requires forall id :: id in byId <==> id in ids
    requires forall id | id in ids :: id in catalog && byId[id] == catalog[id]
    requires forall id :: id in owned <==> id in ids && Belongs(catalog, id, owner)
    requires (forall id | id in owned :: id in needed) && forall id | id in needed :: id in ids
    ensures OwnList(Picked(byId, Kept(needed, owned)), catalog, ids, owner)
    ensures NeededList(Picked(byId, needed), catalog, needed)
  {
    hide Belongs, Picked;
    forall m ensures m in Picked(byId, Kept(needed, owned)) <==> exists id :: id in ids && Belongs(catalog, id, owner) && catalog[id] == m {
      PickedMember(byId, Kept(needed, owned), m);
    }
    forall m ensures m in Picked(byId, needed) <==> exists id :: id in needed && id in catalog && catalog[id] == m {
      PickedMember(byId, needed, m);
    }
  }

  /** The application of a compiled selection: it requires what the components of the profile's
      distribution require, has their entries, and brings along the distributions of all that
      they need. */
  lemma ApplicationMeans(catalog: Catalog, ids: seq<string>, text: string)
    requires Compiled(catalog, ids) && forall i | 0 <= i < |ids| :: ids[i] in catalog
    ensures var components := Manifests(catalog, ids);
            var x, owner, needed := ApplicationOf(components), Owner(components), ClosureOf(components);
            && (forall i: nat | OnlyProfile(components, i) :: owner == Strip(components[i].distribution))
            && LeastClosed(ApplicationNeeds(components), Ascending(OwnedIds(components, owner)), Ids(needed))
            && (text in x.requirements <==> RequiredBy(catalog, ids, owner, text))
            && (text in x.entries <==> EntryOf(catalog, ids, owner, text))
            && (text in x.distributions <==> DistributionOf(catalog, needed, text))
  {
    var components := Manifests(catalog, ids);
    var owner, needed := Owner(components), ClosureOf(components);
    var own, all := Picked(ById(components), Kept(needed, OwnedIds(components, owner))), Picked(ById(components), needed);
    ClosureIsLeastSet(catalog, ids);
    PickedLists(catalog, ids);
    OwnerTold(components);
    hide Compiled, Manifests, ById, OnlyProfile, OwnedIds, Owner, ClosureOf, Kept, Picked, RequirementsOf, Trimmed, Unique, OwnList, NeededList,
         DistributionNames, EntryTexts, ApplicationNeeds, LeastClosed, RequiredBy, EntryOf, DistributionOf, Strip;
    RequirementMeans(own, catalog, ids, owner, text);
    EntryMeans(own, catalog, ids, owner, text);
    DistributionMeans(all, catalog, needed, text);
  }

  lemma OwnerTold(components: seq<Manifest>)
    ensures forall i: nat | OnlyProfile(components, i) :: Owner(components) == Strip(components[i].distribution)
  {
    ProfilesTold(components);
    hide Strip, Profiles, OnlyProfile;
  }

  /** A component of the owner requires the capability. */
  ghost predicate RequiredBy(catalog: Catalog, ids: seq<string>, owner: string, text: string) {
    exists id :: id in ids && Belongs(catalog, id, owner) && text in Trimmed(catalog[id].runtimeRequirements)
  }

  ghost predicate EntryOf(catalog: Catalog, ids: seq<string>, owner: string, text: string) {
    text != "" && exists id :: id in ids && Belongs(catalog, id, owner) && Strip(catalog[id].registrationEntry) == text
  }

  ghost predicate DistributionOf(catalog: Catalog, needed: seq<string>, text: string) {
    text != "" && exists id :: id in needed && id in catalog && Strip(catalog[id].distribution) == text
  }

  lemma RequirementMeans(own: seq<Manifest>, catalog: Catalog, ids: seq<string>, owner: string, text: string)
    requires OwnList(own, catalog, ids, owner)
    ensures text in RequirementsOf(own) <==> RequiredBy(catalog, ids, owner, text)
  {
    hide Trimmed, RequirementsOf, Strip;
    RequirementsMember(own, text);
    if id :| id in ids && Belongs(catalog, id, owner) && text in Trimmed(catalog[id].runtimeRequirements) {
      assert catalog[id] in own;
    }
  }

  lemma EntryMeans(own: seq<Manifest>, catalog: Catalog, ids: seq<string>, owner: string, text: string)
    requires OwnList(own, catalog, ids, owner)
    ensures text in Unique(Trimmed(EntryTexts(own))) <==> EntryOf(catalog, ids, owner, text)
  {
    hide Trimmed, Unique, EntryTexts, Strip;
    EntryMember(own, text);
    if id :| id in ids && Belongs(catalog, id, owner) && Strip(catalog[id].registrationEntry) == text {
      assert catalog[id] in own;
    }
  }

  lemma DistributionMeans(all: seq<Manifest>, catalog: Catalog, needed: seq<string>, text: string)
    requires NeededList(all, catalog, needed)
    ensures text in Unique(Trimmed(DistributionNames(all))) <==> DistributionOf(catalog, needed, text)
  {
    hide Trimmed, Unique, DistributionNames, Strip;
    NameMember(all, text);
    if id :| id in needed && id in catalog && Strip(catalog[id].distribution) == text {
      assert catalog[id] in all;
    }
  }

  lemma OwnedAre(catalog: Catalog, ids: seq<string>, owner: string)
    requires Compiled(catalog, ids) && forall i | 0 <= i < |ids| :: ids[i] in catalog
    ensures forall id :: id in OwnedIds(Manifests(catalog, ids), owner) <==> id in ids && Belongs(catalog, id, owner)
  {
    hide Strip, Topological;
    var components := Manifests(catalog, ids);
    forall id | id in ids && Belongs(catalog, id, owner) ensures id in OwnedIds(components, owner) {
      var i :| 0 <= i < |ids| && ids[i] == id;
      assert Strip(components[i].componentId) == id;
    }
  }

  lemma ClosureIsLeastSet(catalog: Catalog, ids: seq<string>)
    requires Compiled(catalog, ids) && forall i | 0 <= i < |ids| :: ids[i] in catalog
    ensures var components := Manifests(catalog, ids);
            && LeastClosed(ApplicationNeeds(components), Ascending(OwnedIds(components, Owner(components))),
                           Ids(ClosureOf(components)))
            && (forall id | id in ClosureOf(components) :: id in ids)
            && (forall id | id in OwnedIds(components, Owner(components)) :: id in ClosureOf(components))
  {
    var components := Manifests(catalog, ids);
    var owned := OwnedIds(components, Owner(components));
    ClosureIsSelected(catalog, ids);
    OwnedAreSelected(catalog, ids, Owner(components));
    ApplicationNeverFails(catalog, ids, Ascending(owned));
    hide Compiled, OwnedIds, Owner, Manifests, ApplicationNeeds, LeastClosed;
    OrderCoversRoots(ApplicationNeeds(components), owned);
  }

  lemma OrderCoversRoots(graph: Graph<string>, roots: set<string>)
    requires Order(graph, Ascending(roots)).Ordered?
    ensures var done := Order(graph, Ascending(roots)).done;
            LeastClosed(graph, Ascending(roots), Ids(done)) && forall id | id in roots :: id in done
  {
    OrderIsRight(graph, Ascending(roots));
    hide Order, ReachesCycle, ReachesMissing, Topological;
    var done := Order(graph, Ascending(roots)).done;
    assert Ids(done) == set id | id in done;
    forall id | id in roots ensures id in done {
      assert id in Ascending(roots);
      assert id in Ids(done);
    }
  }

  /** The part of a plan that the catalog decides. */
  datatype Selection = Selection(ids: seq<string>, distributions: seq<string>, entries: seq<string>, application: Application)

  ghost predicate SelectionOf(x: Selection, catalog: Catalog, selected: set<string>) {
    var components := ComponentsIn(catalog, selected);
    && x.ids == IdsIn(catalog, selected) && Ids(x.ids) == selected && Compiled(catalog, x.ids)
    && (forall i | 0 <= i < |x.ids| :: x.ids[i] in catalog) && components == Manifests(catalog, x.ids)
    && "" !in DistributionNames(components)
    && x.distributions == Unique(DistributionNames(components))
    && x.entries == Unique(Trimmed(EntryTexts(components)))
    && x.application == ApplicationOf(components)
  }

  /** Selects the components, and projects their distributions and the application. */
  method CompileSelection(refs: seq<string>, catalog: Catalog) returns (result: Result<Selection>, ghost selected: set<string>)
    requires Frozen(catalog)
    ensures (forall id | id in refs :: id in catalog) ==> LeastClosed(Needs(catalog), refs, selected)
    ensures result.Ok? <==> Selectable(refs, catalog, selected)
    ensures result.Ok? ==> SelectionOf(result.value, catalog, selected)
    ensures result.Err? ==> !ApplicationFault(result.error)
  {
    OtherFaults();
    hide ApplicationFault, Projected, LeastClosed, Conflicting, ReachesCycle, Strip, DistributionNames, HasOneProfile, Order,
         Topological, Frozen, Needs, SortedNeeds, Compiled, ComponentsIn, IdsIn, Manifests, SelectionOf;
    var selection;
    selection, selected := SelectComponents(refs, catalog);
    if selection.Err? {
      return Err(selection.error), selected;
    }
    OrderedIsSelected(catalog, selected, selection.value);
    result := ProjectSelection(catalog, selection.value, selected);
  }

  /** The lists of a selection, which are refused if a component has no distribution or there
      is not one profile. */
  method ProjectSelection(catalog: Catalog, ids: seq<string>, ghost selected: set<string>) returns (result: Result<Selection>)
    requires Compiled(catalog, ids) && IdsIn(catalog, selected) == ids && Ids(ids) == selected
    requires (forall i | 0 <= i < |ids| :: ids[i] in catalog) && ComponentsIn(catalog, selected) == Manifests(catalog, ids)
    ensures result.Ok? <==> "" !in DistributionNames(Manifests(catalog, ids)) && HasOneProfile(Manifests(catalog, ids))
    ensures result.Ok? ==> SelectionOf(result.value, catalog, selected)
    ensures result.Err? ==> !ApplicationFault(result.error)
  {
    OtherFaults();
    hide ApplicationFault, Trimmed, Unique, DistributionNames, EntryTexts, HasOneProfile, Compiled, ComponentsIn, IdsIn,
         ApplicationOf, Manifests;
    var components := Manifests(catalog, ids);
    var derived := DeriveDistributionClosure(components);
    if derived.Err? {
      return Err(derived.error);
    }
    var application := CloseSelected(catalog, ids, components);
    if application.Err? {
      return Err(application.error);
    }
    return Ok(Selection(ids, derived.value.0, derived.value.1, application.value));
  }

  lemma OrderedIsSelected(catalog: Catalog, selected: set<string>, ids: seq<string>)
    requires Frozen(catalog) && Topological(Needs(catalog), ids) && Order(SortedNeeds(catalog), Ascending(selected)) == Ordered(ids)
    ensures Compiled(catalog, ids) && IdsIn(catalog, selected) == ids && Ids(ids) == (set id | id in ids)
    ensures forall i | 0 <= i < |ids| :: ids[i] in catalog
    ensures ComponentsIn(catalog, selected) == Manifests(catalog, ids)
  {
    hide Order, SortedNeeds, Frozen;
  }

  /** Compiles a plan: selects the components, projects their distributions, closes the
      application, and closes the runtime requirements. */
  method CompileBundlePlan(refs: seq<string>, catalog: Catalog, always: seq<string>, runtime: seq<RawComponent>,
                           wellFormed: string -> bool)
    returns (result: Result<Plan>, ghost selected: set<string>, ghost index: (map<string, RuntimeComponent>, map<string, string>))
    requires Frozen(catalog)
    ensures (forall id | id in refs :: id in catalog) ==> LeastClosed(Needs(catalog), refs, selected)
    ensures Indexable(runtime, wellFormed) && Selectable(refs, catalog, selected) && CapabilityList(always, wellFormed) ==>
              IndexOf(runtime, index.0, index.1)
    ensures result.Ok? <==>
              && Selectable(refs, catalog, selected)
              && CapabilityList(always, wellFormed) && Indexable(runtime, wellFormed)
              && Providable(Demanded(always, ComponentsIn(catalog, selected)), index.0, index.1)
    ensures result.Ok? ==> Compiles(result.value, catalog, always, selected, index)
    ensures result.Ok? ==>
              Compiled(catalog, result.value.componentIds) && WithinProject(result.value) && CleanPlan(result.value)
    ensures result.Err? ==> !ApplicationFault(result.error)
  {
    OtherFaults();
    index := (map[], map[]);
    hide *;
    var selection;
    selection, selected := CompileSelection(refs, catalog);
    if selection.Err? {
      return Err(selection.error), selected, index;
    }
    var chosen := selection.value;
    SelectionIs(chosen, catalog, selected);
    var components := Manifests(catalog, chosen.ids);
    if !CapabilityList(always, wellFormed) {
      return Err("invalid_runtime_requirement"), selected, index;
    }
    var requirements := CollectRequirements(StripAll(always), components);
    DemandedIs(always, components);
    var closed;
    closed, index := CloseProvided(requirements, runtime, wellFormed);
    if closed.Err? {
      return Err(closed.error), selected, index;
    }
    var plan := Plan(chosen.ids, chosen.distributions, chosen.entries, chosen.application, Ascending(closed.value.0),
                     Ascending(closed.value.1));
    PlanIsCompiled(plan, chosen, catalog, always, selected, index, closed.value.0, closed.value.1);
    return Ok(plan), selected, index;
  }

  lemma SelectionIs(x: Selection, catalog: Catalog, selected: set<string>)
    requires SelectionOf(x, catalog, selected)
    ensures Compiled(catalog, x.ids) && forall i | 0 <= i < |x.ids| :: x.ids[i] in catalog
    ensures ComponentsIn(catalog, selected) == Manifests(catalog, x.ids)
  {
  }

  lemma DemandedIs(always: seq<string>, components: seq<Manifest>)
    ensures (set c | c in StripAll(always)) + RawRequirements(components) == Demanded(always, components)
  {
  }

  lemma PlanIsCompiled(plan: Plan, x: Selection, catalog: Catalog, always: seq<string>, selected: set<string>,
                       index: (map<string, RuntimeComponent>, map<string, string>), capabilities: set<string>, used: set<string>)
    requires Frozen(catalog) && SelectionOf(x, catalog, selected)
    requires plan == Plan(x.ids, x.distributions, x.entries, x.application, Ascending(capabilities), Ascending(used))
    requires Demanded(always, ComponentsIn(catalog, selected)) <= capabilities
    requires forall c | c in capabilities :: c != "" && Stripped(c)
    requires LeastCapabilities(index.0, index.1, Ascending(Demanded(always, ComponentsIn(catalog, selected))), capabilities, used)
    ensures Compiles(plan, catalog, always, selected, index)
    ensures WithinProject(plan) && CleanPlan(plan)
  {
    AscendingIds(capabilities);
    AscendingIds(used);
    SelectionIs(x, catalog, selected);
    hide Frozen, Compiled, LeastCapabilities, CleanPlan, WithinProject, Projected, Unique, Trimmed, Stripped, DistributionNames,
         EntryTexts, IdsIn, ClosureOf;
    var components := Manifests(catalog, x.ids);
    ClosureIsSelected(catalog, x.ids);
    PlanIsWithin(catalog, x.ids, Owner(components), ClosureOf(components), capabilities, plan);
    PlanIsClean(catalog, x.ids, Owner(components), ClosureOf(components), capabilities, plan);
  }

  lemma ClosureIsSelected(catalog: Catalog, ids: seq<string>)
    requires Compiled(catalog, ids) && forall i | 0 <= i < |ids| :: ids[i] in catalog
    ensures forall id | id in ClosureOf(Manifests(catalog, ids)) :: id in ids
  {
    var components := Manifests(catalog, ids);
    OwnedAreSelected(catalog, ids, Owner(components));
    ApplicationNeverFails(catalog, ids, Ascending(OwnedIds(components, Owner(components))));
    hide Compiled, OwnedIds, Owner, Manifests, ApplicationNeeds;
  }

  /** All the capabilities that are asked for from outside the runtime components. */
  function Demanded(always: seq<string>, components: seq<Manifest>): set<string> {
    Ids(StripAll(always)) + RawRequirements(components)
  }

  lemma AscendingIds(texts: set<string>)
    ensures Ids(Ascending(texts)) == texts
  {
  }

  /** Texts without white space around them, none of them blank or twice in the list. */
  ghost predicate CleanList(texts: seq<string>) {
    && (forall i | 0 <= i < |texts| :: texts[i] != "" && Stripped(texts[i]))
    && (forall i, j | 0 <= i < j < |texts| :: texts[i] != texts[j])
  }

  ghost predicate CleanPlan(plan: Plan) {
    && CleanList(plan.projectDistributions) && CleanList(plan.registrationEntries) && CleanList(plan.runtimeCapabilities)
    && CleanList(plan.application.distributions) && CleanList(plan.application.requirements)
    && CleanList(plan.application.entries)
  }

  lemma {:induction false} UniqueIsClean(texts: seq<string>)
    requires forall t | t in texts :: t != "" && Stripped(t)
    ensures CleanList(Unique(texts))
    decreases |texts|
  {
    hide Stripped;
    if texts != [] {
      var n := |texts| - 1;
      assert texts == texts[..n] + [texts[n]];
      assert forall t | t in texts[..n] :: t in texts;
      UniqueIsClean(texts[..n]);
    }
  }

  lemma AscendingIsClean(texts: set<string>)
    requires forall t | t in texts :: t != "" && Stripped(t)
    ensures CleanList(Ascending(texts))
  {
    hide Stripped, Ascending;
    AscendingSorted(texts);
    var sorted := Ascending(texts);
    forall i | 0 <= i < |sorted| ensures sorted[i] != "" && Stripped(sorted[i]) {
      assert sorted[i] in sorted;
    }
  }

  lemma {:induction false} RequirementsAreClean(components: seq<Manifest>, t: string)
    requires t in RequirementsOf(components)
    ensures t != "" && Stripped(t)
    decreases |components|
  {
    hide Stripped;
    if t in RequirementsOf(components[..|components| - 1]) {
      RequirementsAreClean(components[..|components| - 1], t);
    }
  }

  lemma NamesAreStripped(components: seq<Manifest>)
    requires "" !in DistributionNames(components)
    ensures forall t | t in DistributionNames(components) :: t != "" && Stripped(t)
  {
  }

  lemma PlanIsClean(catalog: Catalog, ids: seq<string>, owner: string, done: seq<string>, capabilities: set<string>, plan: Plan)
    requires forall i | 0 <= i < |ids| :: ids[i] in catalog
    requires "" !in DistributionNames(Manifests(catalog, ids))
    requires forall c | c in capabilities :: c != "" && Stripped(c)
    requires plan.projectDistributions == Unique(DistributionNames(Manifests(catalog, ids)))
    requires plan.registrationEntries == Unique(Trimmed(EntryTexts(Manifests(catalog, ids))))
    requires plan.application
          == Projected(ById(Manifests(catalog, ids)), OwnedIds(Manifests(catalog, ids), owner), done)
    requires plan.runtimeCapabilities == Ascending(capabilities)
    ensures CleanPlan(plan)
  {
    var components := Manifests(catalog, ids);
    var byId, owned := ById(components), OwnedIds(components, owner);
    var own := Picked(byId, Kept(done, owned));
    NamesAreStripped(components);
    hide Stripped, CleanList, DistributionNames, EntryTexts, Manifests, ById, OwnedIds, Picked, Kept, RequirementsOf, Trimmed,
         Unique;
    UniqueIsClean(DistributionNames(components));
    UniqueIsClean(Trimmed(EntryTexts(components)));
    AscendingIsClean(capabilities);
    UniqueIsClean(Trimmed(DistributionNames(Picked(byId, done))));
    UniqueIsClean(Trimmed(EntryTexts(own)));
    forall t | t in RequirementsOf(own) ensures t != "" && Stripped(t) {
      RequirementsAreClean(own, t);
    }
    AscendingIsClean(RequirementsOf(own));
  }

  function Ids(ids: seq<string>): set<string> {
    set id | id in ids
  }

  function Owner(components: seq<Manifest>): string {
    if |Profiles(components)| == 1 then Strip(Profiles(components)[0].distribution) else ""
  }

  /** The application's closure of selected components; it only wants one profile among them. */
  method CloseSelected(catalog: Catalog, ids: seq<string>, components: seq<Manifest>) returns (application: Result<Application>)
    requires Compiled(catalog, ids) && (forall i | 0 <= i < |ids| :: ids[i] in catalog) && components == Manifests(catalog, ids)
    requires "" !in DistributionNames(components)
    ensures application == if HasOneProfile(components) then Ok(ApplicationOf(components))
                           else Err("invalid_application_profile")
    ensures application.Err? ==> !ApplicationFault(application.error)
  {
    OtherFaults();
    application := CloseApplication(components);
    ProfilesTold(components);
    hide HasOneProfile;
    if |Profiles(components)| == 1 {
      ProfileOwns(components);
      OwnedAreSelected(catalog, ids, Owner(components));
      ApplicationNeverFails(catalog, ids, Ascending(OwnedIds(components, Owner(components))));
    }
    hide ApplicationFault, Profiles, OwnedIds, Projected, ById, Strip, Manifests, ApplicationNeeds, DistributionNames, Order;
  }

  lemma {:induction false} ProfilesAreIn(components: seq<Manifest>)
    ensures forall m | m in Profiles(components) :: m in components
    decreases |components|
  {
    if components != [] {
      var n := |components| - 1;
      ProfilesAreIn(components[..n]);
      assert components == components[..n] + [components[n]];
    }
  }

  /** The profile's distribution owns at least the profile. */
  lemma ProfileOwns(components: seq<Manifest>)
    requires |Profiles(components)| == 1 && "" !in DistributionNames(components)
    ensures Owner(components) == Strip(Profiles(components)[0].distribution) != ""
    ensures OwnedIds(components, Owner(components)) != {}
  {
    ProfilesAreIn(components);
    var profile := Profiles(components)[0];
    assert profile in components;
    var i :| 0 <= i < |components| && components[i] == profile;
    hide Profiles, Strip;
    assert DistributionNames(components)[i] == Strip(profile.distribution);
    assert Strip(components[i].componentId) in OwnedIds(components, Owner(components));
  }

  /** The runtime closure over freshly indexed components: only capabilities that some
      component provides are in it, so none has white space around it. */
  method CloseProvided(requirements: set<string>, runtime: seq<RawComponent>, wellFormed: string -> bool)
    returns (result: Result<(set<string>, set<string>)>, ghost index: (map<string, RuntimeComponent>, map<string, string>))
    ensures Indexable(runtime, wellFormed) ==> IndexOf(runtime, index.0, index.1)
    ensures result.Ok? <==> Indexable(runtime, wellFormed) && Providable(requirements, index.0, index.1)
    ensures result.Ok? ==>
              && requirements <= result.value.0 && (forall c | c in result.value.0 :: c != "" && Stripped(c))
              && IndexOf(runtime, index.0, index.1)
              && LeastCapabilities(index.0, index.1, Ascending(requirements), result.value.0, result.value.1)
    ensures result.Err? ==> !ApplicationFault(result.error)
  {
    index := (map[], map[]);
    IndexFaults();
    hide ApplicationFault, IndexOf, Indexable, LeastCapabilities, Indexed;
    var indexed := IndexRuntimeComponents(runtime, wellFormed);
    if indexed.Err? {
      return Err(indexed.error), index;
    }
    index := indexed.value;
    IndexIsIndexed(runtime, index.0, index.1);
    result := CloseRuntime(requirements, indexed.value.0, indexed.value.1);
    if result.Ok? {
      ProvidedIsClean(runtime, index.0, index.1, wellFormed, requirements, result.value.0, result.value.1);
    }
  }

  lemma IndexFaults()
    ensures forall error | error in INDEX_ERRORS :: !ApplicationFault(error)
    ensures !ApplicationFault("unknown_runtime_requirement") && !ApplicationFault("runtime_component_cycle")
  {
  }

  lemma IndexIsIndexed(raw: seq<RawComponent>, components: map<string, RuntimeComponent>, providers: map<string, string>)
    requires IndexOf(raw, components, providers)
    ensures Indexed(components, providers)
  {
  }

  /** Every capability of the closure was listed by some component, which has no blanks. */
  lemma ProvidedIsClean(raw: seq<RawComponent>, components: map<string, RuntimeComponent>, providers: map<string, string>,
                        wellFormed: string -> bool, requirements: set<string>, capabilities: set<string>, selected: set<string>)
    requires IndexOf(raw, components, providers) && Indexable(raw, wellFormed)
    requires LeastCapabilities(components, providers, Ascending(requirements), capabilities, selected)
    ensures requirements <= capabilities && forall c | c in capabilities :: c != "" && Stripped(c)
  {
    CapabilitiesProvided(components, providers, Ascending(requirements), capabilities, selected);
    hide LeastCapabilities;
    forall c | c in capabilities ensures c != "" && Stripped(c) {
      ListedIsClean(raw, components, providers, wellFormed, c);
    }
  }

  lemma CapabilitiesProvided(components: map<string, RuntimeComponent>, providers: map<string, string>, inputs: seq<string>,
                             capabilities: set<string>, selected: set<string>)
    requires LeastCapabilities(components, providers, inputs, capabilities, selected)
    ensures forall c | c in inputs :: c in capabilities
    ensures forall c | c in capabilities :: c in providers
  {
  }

  lemma ListedIsClean(raw: seq<RawComponent>, components: map<string, RuntimeComponent>, providers: map<string, string>,
                      wellFormed: string -> bool, c: string)
    requires IndexOf(raw, components, providers) && Indexable(raw, wellFormed) && c in providers
    ensures c != "" && Stripped(c)
  {
    hide Strip, Stripped, Compatible;
    var k := providers[c];
    assert k in components && c in components[k].provided;
    var i :| 0 <= i < |raw| && Strip(raw[i].id) == k;
    assert Carries(components[k], raw[i]) && GoodRecord(raw[i], wellFormed);
    var j :| 0 <= j < |raw[i].provided| && Strip(raw[i].provided[j]) == c;
  }
}
