/** The component catalog, and the selection of the components that an agent is made of. */
module ComponentSelection {
  import opened Outcomes
  import opened Text
  import opened TextSort
  import opened DepthFirst

  datatype Manifest = Manifest(
    componentId: string,
    kind: string,
    distribution: string,
    needs: seq<string>,
    conflicts: seq<string>,
    namespaces: seq<string>,
    registrationEntry: string,
    runtimeRequirements: seq<string>)

  type Catalog = map<string, Manifest>

  /** What freezing a catalog guarantees. */
  ghost predicate Frozen(catalog: Catalog) {
    forall id | id in catalog ::
      && id != "" && Strip(catalog[id].componentId) == id
      && (forall needed | needed in catalog[id].needs :: needed in catalog)
      && (forall other | other in catalog[id].conflicts :: other in catalog)
  }

  /** Every component belongs to a distribution of the catalog. */
  ghost predicate Owned(catalog: Catalog) {
    forall id | id in catalog :: catalog[id].distribution in Distributions(catalog)
  }

  function Distributions(catalog: Catalog): set<string> {
    set id | id in catalog && catalog[id].kind == "distribution" :: catalog[id].componentId
  }

  // ----------------------------------------------------------------- catalog

  class ComponentCatalog {
    var manifests: Catalog
    var frozen: bool

    /** Manifests are filed under their stripped ids; ids and names have some text. */
    ghost predicate Valid()
      reads this
    {
      forall id | id in manifests :: id != "" && Strip(manifests[id].componentId) == id
    }

    constructor ()
      ensures Valid() && manifests == map[] && !frozen
    {
      manifests, frozen := map[], false;
    }

    /** `wellFormed` stands for the checks of kind, version, assets and the text patterns. */
    method Register(manifest: Manifest, wellFormed: bool) returns (error: Option<string>)
      requires Valid()
      modifies this
      ensures Valid() && frozen == old(frozen)
      ensures var id := Strip(manifest.componentId);
              if old(frozen) then error == Some("catalog_frozen")
              else if id == "" then error == Some("invalid_component_id")
              else if id in old(manifests) then error == Some("duplicate_component")
              else if !wellFormed then error == Some("invalid_component")
              else error.None? && manifests == old(manifests)[id := manifest]
      ensures error.Some? ==> manifests == old(manifests)
    {
      if frozen {
        return Some("catalog_frozen");
      }
      var id := Strip(manifest.componentId);
      if id == "" {
        return Some("invalid_component_id");
      }
      if id in manifests {
        return Some("duplicate_component");
      }
      if !wellFormed {
        return Some("invalid_component");
      }
      manifests := manifests[id := manifest];
      return None;
    }

    /** Freezing succeeds exactly for a catalog that is closed under what its manifests name,
        and whose namespaces are not shared. */
    method Freeze() returns (catalog: Result<Catalog>)
      requires Valid() && (frozen ==> Freezable(manifests))
      modifies this`frozen
      ensures Valid() && (frozen ==> Freezable(manifests) && Frozen(manifests) && Owned(manifests))
      ensures catalog.Ok? <==> Freezable(manifests)
      ensures catalog.Ok? ==> frozen && catalog.value == manifests
      ensures catalog.Err? ==> frozen == old(frozen)
    {
      if Freezable(manifests) {
        FreezableIsFrozen(manifests);
      }
      hide Freezable, Frozen, Owned;
      if frozen {
        return Ok(manifests);
      }
      var error := CheckCatalog(manifests);
      if error.Some? {
        return Err(error.value);
      }
      frozen := true;
      return Ok(manifests);
    }
  }

  /** What a manifest names is in the catalog; a distribution owns itself. */
  ghost predicate Sound(catalog: Catalog, distributions: set<string>, id: string) {
    && id in catalog
    && catalog[id].distribution in distributions
    && (catalog[id].kind == "distribution" ==> catalog[id].distribution == catalog[id].componentId)
    && (forall needed | needed in catalog[id].needs :: needed in catalog)
    && (forall other | other in catalog[id].conflicts :: other in catalog)
  }

  ghost predicate ShareNames(a: Manifest, b: Manifest) {
    a.componentId != b.componentId && exists name :: name in a.namespaces && name in b.namespaces
  }

  ghost predicate Freezable(catalog: Catalog) {
    && Distributions(catalog) != {}
    && (forall id | id in catalog :: Sound(catalog, Distributions(catalog), id))
    && (forall a, b | a in catalog && b in catalog :: !ShareNames(catalog[a], catalog[b]))
  }

  lemma FreezableIsFrozen(catalog: Catalog)
    requires forall id | id in catalog :: id != "" && Strip(catalog[id].componentId) == id
    requires Freezable(catalog)
    ensures Frozen(catalog) && Owned(catalog)
  {
    hide Strip, ShareNames, Distributions;
    assert forall id | id in catalog :: Sound(catalog, Distributions(catalog), id);
  }

  /** The checks of a freeze, manifest by manifest. */
  method CheckCatalog(manifests: Catalog) returns (error: Option<string>)
    ensures error.None? <==> Freezable(manifests)
  {
    var ids := Ascending(manifests.Keys);
    var distributions := Distributions(manifests);
    hide Sound, ShareNames, Distributions;
    if distributions == {} {
      return Some("missing_distribution_owner");
    }
    error := CheckManifests(manifests, distributions, ids);
    AllInOrder(manifests, distributions, ids);
  }

  /** The manifests up to a place in the order pass the checks. */
  ghost predicate Passes(manifests: Catalog, distributions: set<string>, ids: seq<string>)
    requires forall k | 0 <= k < |ids| :: ids[k] in manifests
  {
    && (forall k | 0 <= k < |ids| :: Sound(manifests, distributions, ids[k]))
    && (forall k, l | 0 <= k < |ids| && 0 <= l < |ids| :: !ShareNames(manifests[ids[k]], manifests[ids[l]]))
  }

  lemma AllInOrder(manifests: Catalog, distributions: set<string>, ids: seq<string>)
    requires forall t :: t in ids <==> t in manifests
    ensures forall k | 0 <= k < |ids| :: ids[k] in manifests
    ensures Passes(manifests, distributions, ids)
       <==> && (forall id | id in manifests :: Sound(manifests, distributions, id))
            && (forall a, b | a in manifests && b in manifests :: !ShareNames(manifests[a], manifests[b]))
  {
    hide Sound, ShareNames;
    if Passes(manifests, distributions, ids) {
      forall a | a in manifests ensures Sound(manifests, distributions, a) {
        var k :| 0 <= k < |ids| && ids[k] == a;
      }
      forall a, b | a in manifests && b in manifests ensures !ShareNames(manifests[a], manifests[b]) {
        var k :| 0 <= k < |ids| && ids[k] == a;
        var l :| 0 <= l < |ids| && ids[l] == b;
      }
    }
  }

  /** Every owner of a namespace is a manifest that names it. */
  ghost predicate Justified(manifests: Catalog, ids: seq<string>, name: string, owner: string)
    requires forall k | 0 <= k < |ids| :: ids[k] in manifests
  {
    exists k :: 0 <= k < |ids| && name in manifests[ids[k]].namespaces && owner == manifests[ids[k]].componentId
  }

  /** Every namespace of the manifests up to a place in the order is claimed for them. */
  ghost predicate ClaimedBy(manifests: Catalog, ids: seq<string>, owners: map<string, string>)
    requires forall k | 0 <= k < |ids| :: ids[k] in manifests
  {
    && (forall k, name | 0 <= k < |ids| && name in manifests[ids[k]].namespaces ::
          name in owners && owners[name] == manifests[ids[k]].componentId)
    && (forall name | name in owners :: Justified(manifests, ids, name, owners[name]))
  }

  method CheckManifests(manifests: Catalog, distributions: set<string>, ids: seq<string>) returns (error: Option<string>)
    requires forall k | 0 <= k < |ids| :: ids[k] in manifests
    ensures error.None? <==> Passes(manifests, distributions, ids)
  {
    var owners: map<string, string> := map[];
    assert ClaimedBy(manifests, ids[..0], owners) && Passes(manifests, distributions, ids[..0]);
    hide Sound, ClaimedBy, Passes, ShareNames;
    for i := 0 to |ids|
      invariant ClaimedBy(manifests, ids[..i], owners) && Passes(manifests, distributions, ids[..i])
    {
      assert ids[..i + 1] == ids[..i] + [ids[i]];
      PassesNext(manifests, distributions, ids[..i], ids[i], owners);
      error := CheckManifest(manifests, distributions, ids[i]);
      if error.Some? {
        NeverPasses(manifests, distributions, ids, i + 1);
        return;
      }
      var claimed := ClaimNamespaces(owners, manifests[ids[i]]);
      if claimed.Err? {
        NeverPasses(manifests, distributions, ids, i + 1);
        return Some(claimed.error);
      }
      ClaimedNext(manifests, ids[..i], ids[i], owners, claimed.value);
      owners := claimed.value;
    }
    assert ids[..|ids|] == ids;
    return None;
  }

  lemma NeverPasses(manifests: Catalog, distributions: set<string>, ids: seq<string>, n: nat)
    requires n <= |ids| && forall k | 0 <= k < |ids| :: ids[k] in manifests
    requires !Passes(manifests, distributions, ids[..n])
    ensures !Passes(manifests, distributions, ids)
  {
    hide Sound, ShareNames;
    assert forall k | 0 <= k < n :: ids[..n][k] == ids[k];
  }

  /** One more manifest passes if it is sound and its namespaces are free, or its own. */
  lemma PassesNext(manifests: Catalog, distributions: set<string>, ids: seq<string>, id: string, owners: map<string, string>)
    requires id in manifests && forall k | 0 <= k < |ids| :: ids[k] in manifests
    requires ClaimedBy(manifests, ids, owners) && Passes(manifests, distributions, ids)
    ensures Passes(manifests, distributions, ids + [id])
       <==> && Sound(manifests, distributions, id)
            && forall name | name in manifests[id].namespaces && name in owners :: owners[name] == manifests[id].componentId
  {
    hide Sound;
    var all := ids + [id];
    assert forall k | 0 <= k < |ids| :: all[k] == ids[k];
    assert all[|ids|] == id;
    if Passes(manifests, distributions, all) {
      forall name | name in manifests[id].namespaces && name in owners ensures owners[name] == manifests[id].componentId {
        assert Justified(manifests, ids, name, owners[name]);
        var k :| 0 <= k < |ids| && name in manifests[ids[k]].namespaces && owners[name] == manifests[ids[k]].componentId;
        assert !ShareNames(manifests[all[k]], manifests[all[|ids|]]);
      }
    }
    if forall name | name in manifests[id].namespaces && name in owners :: owners[name] == manifests[id].componentId {
      forall k | 0 <= k < |ids| ensures !ShareNames(manifests[ids[k]], manifests[id]) && !ShareNames(manifests[id], manifests[ids[k]]) {
      }
    }
  }

  lemma JustifiedMore(manifests: Catalog, ids: seq<string>, id: string, name: string, owner: string)
    requires id in manifests && forall k | 0 <= k < |ids| :: ids[k] in manifests
    requires Justified(manifests, ids, name, owner) || (name in manifests[id].namespaces && owner == manifests[id].componentId)
    ensures Justified(manifests, ids + [id], name, owner)
  {
    var all := ids + [id];
    assert all[|ids|] == id;
    if k :| 0 <= k < |ids| && name in manifests[ids[k]].namespaces && owner == manifests[ids[k]].componentId {
      assert all[k] == ids[k];
    }
  }

  lemma ClaimedNext(manifests: Catalog, ids: seq<string>, id: string, owners: map<string, string>, claimed: map<string, string>)
    requires id in manifests && forall k | 0 <= k < |ids| :: ids[k] in manifests
    requires ClaimedBy(manifests, ids, owners)
    requires forall name | name in manifests[id].namespaces && name in owners :: owners[name] == manifests[id].componentId
    requires forall name :: name in claimed <==> name in owners || name in manifests[id].namespaces
    requires forall name | name in claimed ::
               claimed[name] == if name in manifests[id].namespaces then manifests[id].componentId else owners[name]
    ensures ClaimedBy(manifests, ids + [id], claimed)
  {
    hide Justified;
    var all := ids + [id];
    assert forall k | 0 <= k < |ids| :: all[k] == ids[k];
    forall name | name in claimed ensures Justified(manifests, all, name, claimed[name]) {
      JustifiedMore(manifests, ids, id, name, claimed[name]);
    }
  }

  method CheckManifest(manifests: Catalog, distributions: set<string>, id: string) returns (error: Option<string>)
    requires id in manifests
    ensures error.None? <==> Sound(manifests, distributions, id)
  {
    var manifest := manifests[id];
    if manifest.distribution !in distributions {
      return Some("unknown_distribution_owner");
    }
    if manifest.kind == "distribution" && manifest.distribution != manifest.componentId {
      return Some("invalid_distribution_owner");
    }
    if exists needed | needed in manifest.needs :: needed !in manifests {
      return Some("missing_dependency");
    }
    if exists other | other in manifest.conflicts :: other !in manifests {
      return Some("unknown_conflict");
    }
    return None;
  }

  /** A namespace belongs to the first component that names it. */
  method ClaimNamespaces(owners: map<string, string>, manifest: Manifest) returns (claimed: Result<map<string, string>>)
    ensures claimed.Ok? <==>
              forall name | name in manifest.namespaces && name in owners :: owners[name] == manifest.componentId
    ensures claimed.Ok? ==> forall name ::
              name in claimed.value <==> name in owners || name in manifest.namespaces
    ensures claimed.Ok? ==> forall name | name in claimed.value ::
              claimed.value[name] == if name in manifest.namespaces then manifest.componentId else owners[name]
  {
    var now := owners;
    for n := 0 to |manifest.namespaces|
      invariant forall name | name in manifest.namespaces[..n] && name in owners :: owners[name] == manifest.componentId
      invariant forall name :: name in now <==> name in owners || name in manifest.namespaces[..n]
      invariant forall name | name in now ::
                  now[name] == if name in manifest.namespaces[..n] then manifest.componentId else owners[name]
    {
      var name := manifest.namespaces[n];
      assert manifest.namespaces[..n + 1] == manifest.namespaces[..n] + [name];
      if name in now && now[name] != manifest.componentId {
        return Err("duplicate_namespace");
      }
      now := now[name := manifest.componentId];
    }
    assert manifest.namespaces[..|manifest.namespaces|] == manifest.namespaces;
    return Ok(now);
  }

  // --------------------------------------------------------------- selection

  /** Who needs whom, as the manifests list it, and in alphabetical order. */
  function Needs(catalog: Catalog): Graph<string> {
    map id | id in catalog :: catalog[id].needs
  }

  function SortedNeeds(catalog: Catalog): Graph<string> {
    map id | id in catalog :: Sort(catalog[id].needs)
  }

  ghost predicate Conflicting(catalog: Catalog, selected: set<string>) {
    exists id, other :: id in selected && id in catalog && other in catalog[id].conflicts && other in selected
  }

  /** What the worklist has found: everything needed is found or still pending, and nothing
      was found that could be left out. */
  ghost predicate Underway(catalog: Catalog, refs: seq<string>, selected: set<string>, pending: seq<string>) {
    && selected <= catalog.Keys
    && (forall id | id in refs :: id in selected || id in pending)
    && (forall id, needed | id in selected && needed in catalog[id].needs :: needed in selected || needed in pending)
    && (forall id | id in pending && id !in catalog :: id in refs)
    && (forall id | id in selected || id in pending :: Forced(catalog, refs, id))
  }

  /** Every closed set with the references has the component. */
  ghost predicate Forced(catalog: Catalog, refs: seq<string>, id: string) {
    forall other: set<string> | ClosedSet(Needs(catalog), other) && (forall k | k in refs :: k in other) :: id in other
  }

  lemma ForcedNeeds(catalog: Catalog, refs: seq<string>, id: string, needed: string)
    requires Forced(catalog, refs, id) && id in catalog && needed in catalog[id].needs
    ensures Forced(catalog, refs, needed)
  {
    forall other: set<string> | ClosedSet(Needs(catalog), other) && (forall k | k in refs :: k in other) ensures needed in other {
      assert id in other && id in Needs(catalog);
    }
  }

  lemma LastForced(catalog: Catalog, refs: seq<string>, selected: set<string>, rest: seq<string>, id: string)
    requires Underway(catalog, refs, selected, rest + [id])
    ensures Forced(catalog, refs, id)
  {
    hide Forced;
    assert id in rest + [id];
  }

  lemma NeedsKnown(catalog: Catalog, id: string)
    requires Frozen(catalog) && id in catalog
    ensures forall needed | needed in catalog[id].needs :: needed in catalog
  {
    hide Strip;
  }

  lemma NothingFound(catalog: Catalog, refs: seq<string>)
    ensures Underway(catalog, refs, {}, refs)
  {
    hide ClosedSet;
  }

  lemma UnknownRef(catalog: Catalog, refs: seq<string>, selected: set<string>, pending: seq<string>)
    requires Underway(catalog, refs, selected, pending) && pending != [] && pending[|pending| - 1] !in catalog
    ensures pending[|pending| - 1] in refs
  {
    assert pending[|pending| - 1] in pending;
    hide Forced;
  }

  lemma PopKnown(catalog: Catalog, refs: seq<string>, selected: set<string>, pending: seq<string>)
    requires Underway(catalog, refs, selected, pending) && pending != [] && pending[|pending| - 1] in selected
    ensures Underway(catalog, refs, selected, pending[..|pending| - 1])
  {
    var rest, id := pending[..|pending| - 1], pending[|pending| - 1];
    assert pending == rest + [id];
    hide Forced;
  }

  lemma PopNew(catalog: Catalog, refs: seq<string>, selected: set<string>, rest: seq<string>, id: string)
    requires Frozen(catalog) && Underway(catalog, refs, selected, rest + [id]) && id in catalog
    ensures Underway(catalog, refs, selected + {id}, rest + catalog[id].needs)
  {
    hide Underway, Frozen, Forced;
    LastForced(catalog, refs, selected, rest, id);
    NeedsForced(catalog, refs, id);
    UnderwayMore(catalog, refs, selected, rest, id);
  }

  lemma NeedsForced(catalog: Catalog, refs: seq<string>, id: string)
    requires Frozen(catalog) && id in catalog && Forced(catalog, refs, id)
    ensures forall k | k in catalog[id].needs :: k in catalog && Forced(catalog, refs, k)
  {
    NeedsKnown(catalog, id);
    hide Frozen, Forced;
    forall k | k in catalog[id].needs ensures k in catalog && Forced(catalog, refs, k) {
      ForcedNeeds(catalog, refs, id, k);
    }
  }

  lemma UnderwayMore(catalog: Catalog, refs: seq<string>, selected: set<string>, rest: seq<string>, id: string)
    requires Underway(catalog, refs, selected, rest + [id]) && id in catalog
    requires forall k | k in catalog[id].needs :: k in catalog && Forced(catalog, refs, k)
    ensures Underway(catalog, refs, selected + {id}, rest + catalog[id].needs)
  {
    hide Forced;
    assert id in rest + [id];
  }

  lemma UnderwayDone(catalog: Catalog, refs: seq<string>, selected: set<string>)
    requires Underway(catalog, refs, selected, [])
    ensures LeastClosed(Needs(catalog), refs, selected) && selected <= catalog.Keys
    ensures forall id | id in refs :: id in catalog
  {
  }

  /** The worklist: a stack of ids, until nothing is pending. */
  method Collect(refs: seq<string>, catalog: Catalog) returns (result: Result<set<string>>)
    requires Frozen(catalog)
    ensures result.Ok? <==> forall id | id in refs :: id in catalog
    ensures result.Ok? ==> LeastClosed(Needs(catalog), refs, result.value) && result.value <= catalog.Keys
    ensures result.Err? ==> result.error == "unknown_component"
  {
    var selected: set<string> := {};
    var pending := refs;
    NothingFound(catalog, refs);
    hide Frozen, LeastClosed, Underway, Needs;
    while pending != []
      invariant Underway(catalog, refs, selected, pending)
      decreases |catalog.Keys - selected|, |pending|
    {
      var id := pending[|pending| - 1];
      if id in selected {
        PopKnown(catalog, refs, selected, pending);
        pending := pending[..|pending| - 1];
      } else {
        if id !in catalog {
          UnknownRef(catalog, refs, selected, pending);
          return Err("unknown_component");
        }
        assert pending == pending[..|pending| - 1] + [id];
        PopNew(catalog, refs, selected, pending[..|pending| - 1], id);
        Smaller(catalog.Keys, selected, id);
        pending := pending[..|pending| - 1] + catalog[id].needs;
        selected := selected + {id};
      }
    }
    UnderwayDone(catalog, refs, selected);
    result := Ok(selected);
  }

  // ------------------------------------------------------------------- order

  lemma SortedAlike(catalog: Catalog)
    ensures Alike(Needs(catalog), SortedNeeds(catalog)) && Alike(SortedNeeds(catalog), Needs(catalog))
  {
    forall id | id in catalog ensures forall t :: t in Sort(catalog[id].needs) <==> t in catalog[id].needs {
      SortIsRight(catalog[id].needs);
    }
  }

  /** In a frozen catalog known references lead to known components only. */
  lemma NothingMissing(catalog: Catalog, refs: seq<string>)
    requires Frozen(catalog) && forall id | id in refs :: id in catalog
    ensures !ReachesMissing(Needs(catalog), refs)
  {
    forall nodes: seq<string> | Path(Needs(catalog), nodes) && nodes[0] in refs ensures nodes[|nodes| - 1] in Needs(catalog) {
      var i := |nodes| - 1;
      if i > 0 {
        assert nodes[i - 1] in Needs(catalog) && nodes[i - 1 + 1] in Needs(catalog)[nodes[i - 1]];
      }
    }
  }

  /** What ordering the selected components comes to. */
  lemma OrderOfSelected(catalog: Catalog, refs: seq<string>, selected: set<string>)
    requires Frozen(catalog) && (forall id | id in refs :: id in catalog)
    requires LeastClosed(Needs(catalog), refs, selected)
    ensures var outcome := Order(SortedNeeds(catalog), Ascending(selected));
            && !outcome.Missing?
            && (outcome.Cycle? <==> ReachesCycle(Needs(catalog), refs))
            && (outcome.Ordered? ==>
                  Topological(Needs(catalog), outcome.done) && (set id | id in outcome.done) == selected)
  {
    var needs, sorted, roots := Needs(catalog), SortedNeeds(catalog), Ascending(selected);
    NothingMissing(catalog, refs);
    SortedAlike(catalog);
    OrderIsRight(sorted, roots);
    ReachesTheSame(needs, refs, selected, roots);
    AlikeReaches(sorted, needs, roots);
    AlikeReaches(needs, sorted, roots);
    var outcome := Order(sorted, roots);
    if outcome.Ordered? {
      AlikeTopological(sorted, needs, outcome.done);
      var members := set id | id in outcome.done;
      AlikeLeast(sorted, needs, roots, members);
      SelfClosed(needs, refs, selected, roots);
      ClosureUnique(needs, roots, members, selected);
    }
  }

  lemma SelfClosed(graph: Graph<string>, refs: seq<string>, selected: set<string>, roots: seq<string>)
    requires LeastClosed(graph, refs, selected) && forall t :: t in roots <==> t in selected
    ensures LeastClosed(graph, roots, selected)
  {
  }

  /** The components of an agent, each after all those it needs; or the first thing that is
      wrong with the selection. */
  method SelectComponents(refs: seq<string>, catalog: Catalog)
    returns (result: Result<seq<string>>, ghost selected: set<string>)
    requires Frozen(catalog)
    ensures !(forall id | id in refs :: id in catalog) ==> result == Err("unknown_component")
    ensures (forall id | id in refs :: id in catalog) ==>
              && LeastClosed(Needs(catalog), refs, selected) && selected <= catalog.Keys
              && if Conflicting(catalog, selected) then result == Err("component_conflict")
                 else if ReachesCycle(Needs(catalog), refs) then result == Err("dependency_cycle")
                 else
                   && result.Ok? && (set id | id in result.value) == selected
                   && Topological(Needs(catalog), result.value)
                   && Order(SortedNeeds(catalog), Ascending(selected)) == Ordered(result.value)
  {
    var found := Collect(refs, catalog);
    if found.Err? {
      selected := {};
      return Err(found.error), selected;
    }
    selected := found.value;
    var clash := HasConflict(catalog, found.value);
    if clash {
      return Err("component_conflict"), selected;
    }
    OrderOfSelected(catalog, refs, found.value);
    var search := new Search(SortedNeeds(catalog));
    var outcome := search.WalkAll(Ascending(found.value));
    if outcome.Ordered? {
      return Ok(outcome.done), selected;
    }
    return Err("dependency_cycle"), selected;
  }

  method HasConflict(catalog: Catalog, selected: set<string>) returns (clash: bool)
    requires selected <= catalog.Keys
    ensures clash <==> Conflicting(catalog, selected)
  {
    var ids := Ascending(selected);
    for i := 0 to |ids|
      invariant forall k | 0 <= k < i :: forall other | other in catalog[ids[k]].conflicts :: other !in selected
    {
      if other :| other in catalog[ids[i]].conflicts && other in selected {
        return true;
      }
    }
    forall id | id in selected ensures forall other | other in catalog[id].conflicts :: other !in selected {
      assert id in ids;
      var k :| 0 <= k < |ids| && ids[k] == id;
    }
    return false;
  }

  /** Two catalogs that list the same needs, each in its own order. */
  ghost predicate Reordered(a: Catalog, b: Catalog) {
    a.Keys == b.Keys && forall id | id in a :: multiset(a[id].needs) == multiset(b[id].needs)
  }

  lemma SameMembersAlike(a: Catalog, b: Catalog)
    requires Reordered(a, b)
    ensures Alike(Needs(a), Needs(b)) && SortedNeeds(a) == SortedNeeds(b)
  {
    forall id | id in a ensures Sort(a[id].needs) == Sort(b[id].needs)
      && forall t :: t in a[id].needs <==> t in b[id].needs
    {
      SortForgetsOrder(a[id].needs, b[id].needs);
      SameMembers(a[id].needs, b[id].needs);
    }
  }

  /** The order does not depend on how references and needs are listed. */
  lemma OrderForgetsListing(a: Catalog, b: Catalog, refs: seq<string>, others: seq<string>, selected: set<string>,
                            found: set<string>)
    requires Reordered(a, b) && forall t :: t in refs <==> t in others
    requires LeastClosed(Needs(a), refs, selected) && LeastClosed(Needs(b), others, found)
    ensures found == selected
    ensures Order(SortedNeeds(a), Ascending(selected)) == Order(SortedNeeds(b), Ascending(found))
  {
    SameMembersAlike(a, b);
    AlikeLeast(Needs(a), Needs(b), refs, selected);
    SameRoots(Needs(b), refs, others, selected);
    ClosureUnique(Needs(b), others, selected, found);
  }

  lemma SameRoots(graph: Graph<string>, refs: seq<string>, others: seq<string>, selected: set<string>)
    requires LeastClosed(graph, refs, selected) && forall t :: t in refs <==> t in others
    ensures LeastClosed(graph, others, selected)
  {
  }
}
