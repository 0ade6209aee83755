/** The bundle plan: what is compiled into it from the selected components, and what its
    loader checks again. */
module BundlePlan {
  import opened Outcomes
  import opened Text
  import opened TextSort
  import opened DepthFirst
  import opened ComponentSelection
  import opened RuntimeClosure

  // ------------------------------------------------------------------- lists

  /** Each text once, in the order in which the texts first occur. */
  function Unique(texts: seq<string>): (unique: seq<string>)
    ensures forall t :: t in unique <==> t in texts
  {
    if texts == [] then []
    else
      var n := |texts| - 1;
      var front := Unique(texts[..n]);
      assert texts == texts[..n] + [texts[n]];
      if texts[n] in front then front else front + [texts[n]]
  }

  /** `t` occurs before `u` does. */
  ghost predicate OccursBefore(texts: seq<string>, t: string, u: string) {
    forall q | 0 <= q < |texts| && texts[q] == u :: t in texts[..q]
  }

  /** No text is kept twice, and the texts are kept in the order in which they first occur. */
  lemma {:induction false} UniqueTold(texts: seq<string>)
    ensures forall i, j | 0 <= i < j < |Unique(texts)| ::
              Unique(texts)[i] != Unique(texts)[j] && OccursBefore(texts, Unique(texts)[i], Unique(texts)[j])
    decreases |texts|
  {
    if texts != [] {
      var n := |texts| - 1;
      UniqueTold(texts[..n]);
      var front, all := Unique(texts[..n]), Unique(texts);
      forall i, j | 0 <= i < j < |all| ensures all[i] != all[j] && OccursBefore(texts, all[i], all[j]) {
        OneTextMore(texts, all[i], all[j]);
        if j == |front| {
          assert front[i] in front;
        }
      }
    }
  }

  lemma OneTextMore(texts: seq<string>, t: string, u: string)
    requires texts != []
    ensures var n := |texts| - 1;
            OccursBefore(texts, t, u) <==> OccursBefore(texts[..n], t, u) && (texts[n] == u ==> t in texts[..n])
  {
    var n := |texts| - 1;
    assert forall q | 0 <= q < n :: texts[..n][q] == texts[q] && texts[..n][..q] == texts[..q];
  }

  /** The texts without white space around them, blanks left out. */
  function Trimmed(texts: seq<string>): (trimmed: seq<string>)
    ensures forall t | t in trimmed :: t != "" && Stripped(t)
  {
    if texts == [] then []
    else
      var last := Strip(texts[|texts| - 1]);
      Trimmed(texts[..|texts| - 1]) + (if last == "" then [] else [last])
  }

  lemma {:induction false} TrimmedMember(texts: seq<string>, t: string)
    ensures t in Trimmed(texts) <==> t != "" && t in StripAll(texts)
    decreases |texts|
  {
    hide Strip, Stripped;
    if texts != [] {
      var n := |texts| - 1;
      TrimmedMember(texts[..n], t);
      assert StripAll(texts) == StripAll(texts[..n]) + [Strip(texts[n])];
    }
  }

  function DistributionNames(components: seq<Manifest>): (names: seq<string>)
    ensures |names| == |components|
    ensures forall i | 0 <= i < |components| :: names[i] == Strip(components[i].distribution)
  {
    seq(|components|, i requires 0 <= i < |components| => Strip(components[i].distribution))
  }

  function EntryTexts(components: seq<Manifest>): (entries: seq<string>)
    ensures |entries| == |components|
    ensures forall i | 0 <= i < |components| :: entries[i] == components[i].registrationEntry
  {
    seq(|components|, i requires 0 <= i < |components| => components[i].registrationEntry)
  }

  // --------------------------------------------------- distribution closure

  /** The distributions and the registration entries of the components, once each. */
  method DeriveDistributionClosure(components: seq<Manifest>) returns (result: Result<(seq<string>, seq<string>)>)
    ensures result == if "" in DistributionNames(components) then Err("missing_distribution_owner")
                      else Ok((Unique(DistributionNames(components)), Unique(Trimmed(EntryTexts(components)))))
  {
    var distributions: seq<string>, entries: seq<string> := [], [];
    ghost var names, texts := DistributionNames(components), EntryTexts(components);
    NoneYet(names, texts);
    hide DistributionNames, EntryTexts, Strip, Stripped, Unique, Trimmed;
    for i := 0 to |components|
      invariant distributions == Unique(names[..i]) && "" !in names[..i]
      invariant entries == Unique(Trimmed(texts[..i]))
    {
      assert names[..i + 1] == names[..i] + [names[i]] && names[i] in names;
      UniqueNext(names[..i], names[i]);
      TrimmedNext(texts, i);
      var distribution := Strip(components[i].distribution);
      if distribution == "" {
        return Err("missing_distribution_owner");
      }
      if distribution !in distributions {
        distributions := distributions + [distribution];
      }
      var entry := Strip(components[i].registrationEntry);
      if entry != "" && entry !in entries {
        entries := entries + [entry];
      }
    }
    assert names[..|components|] == names && texts[..|components|] == texts;
    result := Ok((distributions, entries));
  }

  lemma NoneYet(names: seq<string>, texts: seq<string>)
    ensures names[..0] == [] && Unique(names[..0]) == [] && Unique(Trimmed(texts[..0])) == []
  {
  }

  lemma UniqueNext(texts: seq<string>, t: string)
    ensures Unique(texts + [t]) == if t in Unique(texts) then Unique(texts) else Unique(texts) + [t]
  {
    assert (texts + [t])[..|texts|] == texts;
  }

  lemma TrimmedNext(texts: seq<string>, i: nat)
    requires i < |texts|
    ensures var t := Strip(texts[i]);
            && Trimmed(texts[..i + 1]) == Trimmed(texts[..i]) + (if t == "" then [] else [t])
            && Unique(Trimmed(texts[..i + 1]))
               == if t == "" || t in Unique(Trimmed(texts[..i])) then Unique(Trimmed(texts[..i]))
                  else Unique(Trimmed(texts[..i])) + [t]
  {
    hide Strip, Stripped, Unique;
    assert texts[..i + 1][..i] == texts[..i];
    var t := Strip(texts[i]);
    if t == "" {
      assert Trimmed(texts[..i + 1]) == Trimmed(texts[..i]);
    } else {
      assert Trimmed(texts[..i + 1]) == Trimmed(texts[..i]) + [t];
      UniqueNext(Trimmed(texts[..i]), t);
    }
  }

  // ---------------------------------------------------- application closure

  datatype Application = Application(requirements: seq<string>, distributions: seq<string>, entries: seq<string>)

  /** The components by their ids; of two with one id the later counts. */
  function ById(components: seq<Manifest>): map<string, Manifest> {
    if components == [] then map[]
    else
      var last := components[|components| - 1];
      ById(components[..|components| - 1])[Strip(last.componentId) := last]
  }

  function ApplicationNeeds(components: seq<Manifest>): Graph<string> {
    var byId := ById(components);
    map id | id in byId :: Trimmed(byId[id].needs)
  }

  function OwnedIds(components: seq<Manifest>, distribution: string): set<string> {
    set i | 0 <= i < |components| && Strip(components[i].distribution) == distribution :: Strip(components[i].componentId)
  }

  function Profiles(components: seq<Manifest>): seq<Manifest> {
    if components == [] then []
    else
      var last := components[|components| - 1];
      Profiles(components[..|components| - 1]) + (if last.kind == "profile" then [last] else [])
  }

  /** Component `i` is a profile, and no other is. */
  ghost predicate OnlyProfile(components: seq<Manifest>, i: nat) {
    && i < |components| && components[i].kind == "profile"
    && forall j | 0 <= j < |components| && j != i :: components[j].kind != "profile"
  }

  ghost predicate HasOneProfile(components: seq<Manifest>) {
    exists i :: OnlyProfile(components, i)
  }

  lemma {:induction false} NoProfiles(components: seq<Manifest>)
    ensures Profiles(components) == [] <==> forall j | 0 <= j < |components| :: components[j].kind != "profile"
    decreases |components|
  {
    if components != [] {
      NoProfiles(components[..|components| - 1]);
    }
  }

  lemma {:induction false} ProfilesTold(components: seq<Manifest>)
    ensures |Profiles(components)| == 1 <==> HasOneProfile(components)
    ensures forall i: nat | OnlyProfile(components, i) :: Profiles(components) == [components[i]]
    decreases |components|
  {
    if components != [] {
      var n := |components| - 1;
      var front := components[..n];
      NoProfiles(front);
      ProfilesTold(front);
      if components[n].kind == "profile" {
        assert OnlyProfile(components, n) <==> Profiles(front) == [];
        assert forall i: nat | OnlyProfile(components, i) :: i == n;
      } else {
        assert forall i: nat :: OnlyProfile(components, i) <==> OnlyProfile(front, i);
      }
    }
  }

  /** The last component with the id. */
  ghost predicate LastWith(components: seq<Manifest>, id: string, i: nat) {
    && i < |components| && Strip(components[i].componentId) == id
    && forall j | i < j < |components| :: Strip(components[j].componentId) != id
  }

  lemma LastIsLast(components: seq<Manifest>, id: string)
    requires components != [] && Strip(components[|components| - 1].componentId) == id
    ensures LastWith(components, id, |components| - 1)
  {
  }

  lemma LastWithNext(components: seq<Manifest>, id: string, i: nat)
    requires components != [] && Strip(components[|components| - 1].componentId) != id
    ensures LastWith(components[..|components| - 1], id, i) ==> LastWith(components, id, i)
  {
    hide Strip;
  }

  /** Of two components with one id the later counts. */
  lemma {:induction false} ByIdTold(components: seq<Manifest>, id: string) returns (i: nat)
    ensures if id in ById(components) then LastWith(components, id, i) && ById(components)[id] == components[i]
            else forall j | 0 <= j < |components| :: Strip(components[j].componentId) != id
    decreases |components|
  {
    hide Strip;
    i := 0;
    if components != [] {
      var n := |components| - 1;
      assert forall j | 0 <= j < n :: components[..n][j] == components[j];
      hide LastWith;
      if Strip(components[n].componentId) == id {
        i := n;
        LastIsLast(components, id);
      } else {
        i := ByIdTold(components[..n], id);
        LastWithNext(components, id, i);
      }
    }
  }

  function Picked(byId: map<string, Manifest>, ids: seq<string>): seq<Manifest> {
    if ids == [] then []
    else
      var last := ids[|ids| - 1];
      Picked(byId, ids[..|ids| - 1]) + (if last in byId then [byId[last]] else [])
  }

  /** What the application's own distribution needs, and the requirements and entries of
      the components it owns. */
  method CloseApplication(components: seq<Manifest>) returns (result: Result<Application>)
    ensures |Profiles(components)| != 1 ==> result == Err("invalid_application_profile")
    ensures |Profiles(components)| == 1 ==>
              var owner := Strip(Profiles(components)[0].distribution);
              var outcome := Order(ApplicationNeeds(components), Ascending(OwnedIds(components, owner)));
              if owner == "" || OwnedIds(components, owner) == {} then result == Err("missing_application_distribution")
              else if outcome.Missing? then result == Err("unknown_application_component")
              else if outcome.Cycle? then result == Err("application_dependency_cycle")
              else result == Ok(Projected(ById(components), OwnedIds(components, owner), outcome.done))
  {
    var byId := ById(components);
    var profiles := Profiles(components);
    if |profiles| != 1 {
      return Err("invalid_application_profile");
    }
    var owner := Strip(profiles[0].distribution);
    if owner == "" {
      return Err("missing_application_distribution");
    }
    var owned := OwnedIds(components, owner);
    if owned == {} {
      return Err("missing_application_distribution");
    }
    hide OwnedIds, Profiles, ById, Projected, Strip;
    var search := new Search(ApplicationNeeds(components));
    var outcome := search.WalkAll(Ascending(owned));
    if outcome.Missing? {
      return Err("unknown_application_component");
    }
    if outcome.Cycle? {
      return Err("application_dependency_cycle");
    }
    DoneIsKnown(ApplicationNeeds(components), Ascending(owned), outcome.done);
    var application := Project(byId, owned, outcome.done);
    result := Ok(application);
  }

  lemma DoneIsKnown(graph: Graph<string>, roots: seq<string>, done: seq<string>)
    requires Order(graph, roots) == Ordered(done)
    ensures forall id | id in done :: id in graph
  {
    OrderIsRight(graph, roots);
  }

  function Kept(ids: seq<string>, owned: set<string>): (kept: seq<string>)
    ensures forall id :: id in kept <==> id in ids && id in owned
  {
    if ids == [] then []
    else
      var n := |ids| - 1;
      assert ids == ids[..n] + [ids[n]];
      Kept(ids[..n], owned) + (if ids[n] in owned then [ids[n]] else [])
  }

  function TrimmedSet(texts: seq<string>): set<string> {
    var trimmed := Trimmed(texts);
    set t | t in trimmed
  }

  function RequirementsOf(components: seq<Manifest>): set<string> {
    if components == [] then {}
    else
      RequirementsOf(components[..|components| - 1])
      + TrimmedSet(components[|components| - 1].runtimeRequirements)
  }

  /** The closure projected: the requirements of what is owned, the distributions of all, the
      entries of what is owned. */
  function Projected(byId: map<string, Manifest>, owned: set<string>, done: seq<string>): Application {
    var own := Picked(byId, Kept(done, owned));
    Application(Ascending(RequirementsOf(own)),
                Unique(Trimmed(DistributionNames(Picked(byId, done)))),
                Unique(Trimmed(EntryTexts(own))))
  }

  /** One component more in the closure. */
  lemma ProjectedNext(byId: map<string, Manifest>, owned: set<string>, done: seq<string>, i: nat)
    requires i < |done| && done[i] in byId
    ensures Picked(byId, done[..i + 1]) == Picked(byId, done[..i]) + [byId[done[i]]]
    ensures Picked(byId, Kept(done[..i + 1], owned))
         == if done[i] in owned then Picked(byId, Kept(done[..i], owned)) + [byId[done[i]]]
            else Picked(byId, Kept(done[..i], owned))
  {
    assert done[..i + 1][..i] == done[..i];
    if done[i] in owned {
      var kept := Kept(done[..i], owned);
      assert Kept(done[..i + 1], owned) == kept + [done[i]];
      assert (kept + [done[i]])[..|kept|] == kept;
    } else {
      assert Kept(done[..i + 1], owned) == Kept(done[..i], owned);
    }
  }

  lemma ProjectedNone(byId: map<string, Manifest>, owned: set<string>, done: seq<string>)
    ensures Unique(Trimmed(DistributionNames(Picked(byId, done[..0])))) == []
    ensures Unique(Trimmed(EntryTexts(Picked(byId, Kept(done[..0], owned))))) == []
    ensures RequirementsOf(Picked(byId, Kept(done[..0], owned))) == {}
  {
  }

  lemma DistributionsNext(components: seq<Manifest>, more: Manifest)
    ensures DistributionNames(components + [more]) == DistributionNames(components) + [Strip(more.distribution)]
    ensures EntryTexts(components + [more]) == EntryTexts(components) + [more.registrationEntry]
    ensures RequirementsOf(components + [more])
         == RequirementsOf(components) + TrimmedSet(more.runtimeRequirements)
  {
    hide Strip;
    assert (components + [more])[..|components|] == components;
  }

  lemma TrimmedAppend(texts: seq<string>, t: string)
    ensures Unique(Trimmed(texts + [t])) == if Strip(t) == "" || Strip(t) in Unique(Trimmed(texts)) then Unique(Trimmed(texts))
                                            else Unique(Trimmed(texts)) + [Strip(t)]
  {
    var all := texts + [t];
    assert all[..|texts|] == texts && all[..|texts| + 1] == all;
    TrimmedNext(all, |texts|);
  }

  method Project(byId: map<string, Manifest>, owned: set<string>, done: seq<string>) returns (application: Application)
    requires forall id | id in done :: id in byId
    ensures application == Projected(byId, owned, done)
  {
    var distributions: seq<string>, entries: seq<string> := [], [];
    var requirements: set<string> := {};
    hide Strip, Stripped, Trimmed, TrimmedSet, Unique, Kept, Picked, RequirementsOf, DistributionNames, EntryTexts;
    ProjectedNone(byId, owned, done);
    for i := 0 to |done|
      invariant distributions == Unique(Trimmed(DistributionNames(Picked(byId, done[..i]))))
      invariant entries == Unique(Trimmed(EntryTexts(Picked(byId, Kept(done[..i], owned)))))
      invariant requirements == RequirementsOf(Picked(byId, Kept(done[..i], owned)))
    {
      assert done[i] in done;
      ProjectedNext(byId, owned, done, i);
      var component := byId[done[i]];
      ghost var all, own := Picked(byId, done[..i]), Picked(byId, Kept(done[..i], owned));
      DistributionsNext(all, component);
      TrimmedAppend(DistributionNames(all), Strip(component.distribution));
      DistributionsNext(own, component);
      TrimmedAppend(EntryTexts(own), component.registrationEntry);
      var distribution := Strip(component.distribution);
      if distribution != "" && distribution !in distributions {
        distributions := distributions + [distribution];
      }
      if done[i] in owned {
        requirements := requirements + TrimmedSet(component.runtimeRequirements);
        var entry := Strip(component.registrationEntry);
        if entry != "" && entry !in entries {
          entries := entries + [entry];
        }
      }
    }
    assert done[..|done|] == done;
    application := Application(Ascending(requirements), distributions, entries);
  }
}
