/** Loading a bundle plan, and when a compiled one is accepted. */
module BundleLoad {
  import opened Outcomes
  import opened Text
  import opened RuntimeClosure
  import opened BundlePlan
  import opened BundleCompile

  // ------------------------------------------------------------------- load

  /** Distribution names are compared without regard to case and kind of separator. */
  function Normalized(name: string): string {
    seq(|name|, i requires 0 <= i < |name| => NormalLetter(name[i]))
  }

  function NormalLetter(c: char): char {
    if c == '_' || c == '.' then '-' else if 'A' <= c <= 'Z' then (c as int + 32) as char else c
  }

  predicate Separator(c: char) {
    c == '-' || c == '_' || c == '.'
  }

  predicate UpperOf(c: char, d: char) {
    'A' <= c <= 'Z' && 'a' <= d <= 'z' && c as int - 'A' as int == d as int - 'a' as int
  }

  predicate SameLetter(c: char, d: char) {
    c == d || (Separator(c) && Separator(d)) || UpperOf(c, d) || UpperOf(d, c)
  }

  /** Two names that differ in nothing but case and kind of separator. */
  predicate SameName(a: string, b: string) {
    |a| == |b| && forall i | 0 <= i < |a| :: SameLetter(a[i], b[i])
  }

  lemma SameNormalLetter(c: char, d: char)
    ensures NormalLetter(c) == NormalLetter(d) <==> SameLetter(c, d)
  {
  }

  lemma SameNormalized(a: string, b: string)
    ensures Normalized(a) == Normalized(b) <==> SameName(a, b)
  {
    hide NormalLetter, SameLetter;
    forall i | 0 <= i < |a| && i < |b| ensures NormalLetter(a[i]) == NormalLetter(b[i]) <==> SameLetter(a[i], b[i]) {
      SameNormalLetter(a[i], b[i]);
    }
    assert |Normalized(a)| == |a| && |Normalized(b)| == |b|;
    if Normalized(a) == Normalized(b) {
      forall i | 0 <= i < |a| ensures SameLetter(a[i], b[i]) {
        assert Normalized(a)[i] == Normalized(b)[i];
      }
    }
  }

  /** What a text of a list stands for; the texts of some lists are names of distributions. */
  function Identity(text: string, names: bool): string {
    if names then Normalized(text) else text
  }

  /** The two texts stand for the same. */
  predicate Alike(a: string, b: string, names: bool) {
    if names then SameName(a, b) else a == b
  }

  lemma IdentityIsAlike()
    ensures forall a, b, names :: Alike(a, b, names) <==> Identity(a, names) == Identity(b, names)
  {
    hide Normalized, SameName;
    forall a, b, names ensures Alike(a, b, names) <==> Identity(a, names) == Identity(b, names) {
      SameNormalized(a, b);
    }
  }

  datatype LoadError = Required | Invalid | Duplicated | OutsideProject | OutsideRuntime | OutsideEntries

  datatype Loaded = Accepted(distributions: seq<string>) | Refused(error: LoadError)

  /** A list that may be loaded: it has some texts, none of them blank, and no two that stand
      for the same. */
  predicate GoodList(values: seq<string>, names: bool) {
    && values != []
    && (forall i | 0 <= i < |values| :: Strip(values[i]) != "")
    && (forall i, j | 0 <= i < j < |values| :: !Alike(Strip(values[i]), Strip(values[j]), names))
  }

  /** What is wrong with a required list of ids: it is missing, or has a blank or a repetition. */
  function ListError(values: seq<string>, names: bool): (error: Option<LoadError>)
    ensures error.Some? ==> error.value in {Required, Invalid, Duplicated}
    ensures error.None? <==> GoodList(values, names)
  {
    IdentityIsAlike();
    hide Strip, Alike, Identity;
    if values == [] then Some(Required)
    else if "" in StripAll(values) then Some(Invalid)
    else if exists i, j | 0 <= i < j < |values| :: Identity(StripAll(values)[i], names) == Identity(StripAll(values)[j], names) then
      Some(Duplicated)
    else None
  }

  /** What an accepted isolated plan satisfies, whoever compiled it: each of its application's
      texts stands in the project's list. */
  ghost predicate WithinStripped(plan: Plan) {
    && Inside(plan.application.distributions, plan.projectDistributions, true)
    && Inside(plan.application.requirements, plan.runtimeCapabilities, false)
    && Inside(plan.application.entries, plan.registrationEntries, false)
  }

  ghost predicate Inside(part: seq<string>, all: seq<string>, names: bool) {
    forall i | 0 <= i < |part| :: exists j :: 0 <= j < |all| && Alike(Strip(part[i]), Strip(all[j]), names)
  }

  lemma WithinIsInside(part: seq<string>, all: seq<string>)
    ensures NamesWithin(part, all) <==> Inside(part, all, true)
    ensures TextsWithin(part, all) <==> Inside(part, all, false)
  {
    IdentityIsAlike();
    hide Strip, SameName, Normalized;
    forall i | 0 <= i < |part|
      ensures Normalized(Strip(part[i])) in NormalizedAll(StripAll(all))
         <==> exists j :: 0 <= j < |all| && Alike(Strip(part[i]), Strip(all[j]), true)
      ensures Strip(part[i]) in StripAll(all) <==> exists j :: 0 <= j < |all| && Alike(Strip(part[i]), Strip(all[j]), false)
    {
      OneInside(Strip(part[i]), all);
    }
    assert forall i | 0 <= i < |part| :: StripAll(part)[i] == Strip(part[i]) && StripAll(part)[i] in StripAll(part);
  }

  lemma OneInside(text: string, all: seq<string>)
    ensures Normalized(text) in NormalizedAll(StripAll(all)) <==> exists j :: 0 <= j < |all| && Alike(text, Strip(all[j]), true)
    ensures text in StripAll(all) <==> exists j :: 0 <= j < |all| && Alike(text, Strip(all[j]), false)
  {
    hide Strip, Normalized, SameName;
    forall j | 0 <= j < |all| ensures Alike(text, Strip(all[j]), true) <==> Normalized(text) == Normalized(StripAll(all)[j]) {
      SameNormalized(text, Strip(all[j]));
    }
    if d :| d in StripAll(all) && Normalized(d) == Normalized(text) {
      var j :| 0 <= j < |all| && StripAll(all)[j] == d;
      assert Alike(text, Strip(all[j]), true);
    }
    if j :| 0 <= j < |all| && Alike(text, Strip(all[j]), true) {
      assert StripAll(all)[j] in StripAll(all);
    }
  }

  predicate NamesWithin(part: seq<string>, all: seq<string>) {
    forall d | d in StripAll(part) :: Normalized(d) in NormalizedAll(StripAll(all))
  }

  predicate TextsWithin(part: seq<string>, all: seq<string>) {
    forall t | t in StripAll(part) :: t in StripAll(all)
  }

  function NormalizedAll(names: seq<string>): set<string> {
    set d | d in names :: Normalized(d)
  }

  lemma StillInside(part: seq<string>, all: seq<string>)
    requires forall t | t in part :: t in all
    ensures forall t | t in StripAll(part) :: t in StripAll(all)
  {
    hide Strip, Stripped;
    forall t | t in StripAll(part) ensures t in StripAll(all) {
      var i :| 0 <= i < |part| && StripAll(part)[i] == t;
      assert part[i] in part;
      var j :| 0 <= j < |all| && all[j] == part[i];
      assert StripAll(all)[j] == t;
    }
  }

  /** A plan within its project gives the loader's three last checks nothing to find. */
  lemma NothingOutside(plan: Plan)
    requires WithinProject(plan)
    ensures WithinStripped(plan)
  {
    StillInside(plan.application.distributions, plan.projectDistributions);
    StillInside(plan.application.requirements, plan.runtimeCapabilities);
    StillInside(plan.application.entries, plan.registrationEntries);
    WithinIsInside(plan.application.distributions, plan.projectDistributions);
    WithinIsInside(plan.application.requirements, plan.runtimeCapabilities);
    WithinIsInside(plan.application.entries, plan.registrationEntries);
    hide Inside;
  }

  /** What the loader accepts: good lists and, for an isolated application, one that lies
      within its project. */
  ghost predicate Loadable(plan: Plan, isolated: bool) {
    && GoodList(plan.projectDistributions, true)
    && (isolated ==>
          && GoodList(plan.application.distributions, true)
          && GoodList(plan.application.requirements, false) && GoodList(plan.application.entries, false)
          && GoodList(plan.runtimeCapabilities, false) && GoodList(plan.registrationEntries, false)
          && WithinStripped(plan))
  }

  /** The first of several lists that is not good. */
  function FirstError(first: Option<LoadError>, second: Option<LoadError>): (error: Option<LoadError>)
    ensures error.None? <==> first.None? && second.None?
    ensures error.Some? ==> error == first || error == second
  {
    if first.Some? then first else second
  }

  /** The checks of the loader; the distributions it returns are those to install. */
  method LoadBundlePlan(plan: Plan, isolated: bool) returns (result: Loaded)
    ensures result.Accepted? <==> Loadable(plan, isolated)
    ensures result.Accepted? ==>
              result.distributions
                == StripAll(if isolated then plan.application.distributions else plan.projectDistributions)
    ensures WithinProject(plan) && result.Refused? ==> result.error in {Required, Invalid, Duplicated}
  {
    if WithinProject(plan) {
      NothingOutside(plan);
    }
    WithinIsInside(plan.application.distributions, plan.projectDistributions);
    WithinIsInside(plan.application.requirements, plan.runtimeCapabilities);
    WithinIsInside(plan.application.entries, plan.registrationEntries);
    hide StripAll, Inside, NamesWithin, TextsWithin, WithinProject, GoodList, ListError, FirstError;
    var error := ListError(plan.projectDistributions, true);
    if error.Some? {
      return Refused(error.value);
    }
    if !isolated {
      return Accepted(StripAll(plan.projectDistributions));
    }
    error := FirstError(ListError(plan.application.distributions, true),
                        FirstError(ListError(plan.application.requirements, false),
                                   ListError(plan.application.entries, false)));
    if error.Some? {
      return Refused(error.value);
    }
    if !NamesWithin(plan.application.distributions, plan.projectDistributions) {
      return Refused(OutsideProject);
    }
    error := ListError(plan.runtimeCapabilities, false);
    if error.Some? {
      return Refused(error.value);
    }
    if !TextsWithin(plan.application.requirements, plan.runtimeCapabilities) {
      return Refused(OutsideRuntime);
    }
    error := ListError(plan.registrationEntries, false);
    if error.Some? {
      return Refused(error.value);
    }
    if !TextsWithin(plan.application.entries, plan.registrationEntries) {
      return Refused(OutsideEntries);
    }
    return Accepted(StripAll(plan.application.distributions));
  }

  // -------------------------------------------------------- compiled, then loaded

  /** No two distributions differ only in case and kind of separator. */
  ghost predicate DistinctNames(names: seq<string>) {
    forall i, j | 0 <= i < j < |names| :: !SameName(names[i], names[j])
  }

  lemma CleanIsGood(texts: seq<string>)
    requires CleanList(texts)
    ensures GoodList(texts, false) <==> texts != []
    ensures GoodList(texts, true) <==> texts != [] && DistinctNames(texts)
  {
    assert forall i | 0 <= i < |texts| :: Strip(texts[i]) == texts[i];
    hide Strip, Stripped, SameName;
  }

  lemma SameIsMutual()
    ensures forall a, b :: SameName(a, b) <==> SameName(b, a)
  {
    hide Normalized, SameName;
    forall a, b ensures SameName(a, b) <==> SameName(b, a) {
      SameNormalized(a, b);
      SameNormalized(b, a);
    }
  }

  /** Distinct names stay distinct in a part of the list. */
  lemma PartDistinct(part: seq<string>, all: seq<string>)
    requires CleanList(part) && DistinctNames(all) && forall t | t in part :: t in all
    ensures DistinctNames(part)
  {
    hide SameName, Stripped;
    SameIsMutual();
    forall i, j | 0 <= i < j < |part| ensures !SameName(part[i], part[j]) {
      assert part[i] in part && part[j] in part;
      var k :| 0 <= k < |all| && all[k] == part[i];
      var l :| 0 <= l < |all| && all[l] == part[j];
      assert k != l;
    }
  }

  /** A compiled plan is accepted by the loader if and only if its project has a distribution
      and no two of them have one name up to case and separators and, for an isolated
      application, that application has some distribution, requirement and entry. */
  lemma CompiledIsLoadable(plan: Plan, isolated: bool)
    requires WithinProject(plan) && CleanPlan(plan)
    ensures Loadable(plan, isolated)
       <==> && plan.projectDistributions != [] && DistinctNames(plan.projectDistributions)
            && (isolated ==>
                  plan.application.distributions != [] && plan.application.requirements != []
                  && plan.application.entries != [])
  {
    NothingOutside(plan);
    CleanIsGood(plan.projectDistributions);
    CleanIsGood(plan.application.distributions);
    CleanIsGood(plan.application.requirements);
    CleanIsGood(plan.application.entries);
    CleanIsGood(plan.runtimeCapabilities);
    CleanIsGood(plan.registrationEntries);
    if DistinctNames(plan.projectDistributions) {
      PartDistinct(plan.application.distributions, plan.projectDistributions);
    }
    NonemptyWithin(plan);
    hide CleanList, DistinctNames, GoodList, WithinProject, WithinStripped;
  }

  lemma NonemptyWithin(plan: Plan)
    requires WithinProject(plan)
    ensures plan.application.requirements != [] ==> plan.runtimeCapabilities != []
    ensures plan.application.entries != [] ==> plan.registrationEntries != []
  {
    if plan.application.requirements != [] {
      assert plan.application.requirements[0] in plan.application.requirements;
    }
    if plan.application.entries != [] {
      assert plan.application.entries[0] in plan.application.entries;
    }
  }
}
