/**
 How the isolated resolution can lose plugins it could keep (packages/plugin-runtime/src/resolver.ts:441-493):
 inputs for an ordinary host on which the result is not the largest consistent subset.
 */
module LostPlugins {
  import opened Results
  import opened Manifests
  import opened Resolver
  import opened ConsistentSubsets
  import opened IsolatedResolver

  const TRUSTED: PluginId := "good"
  const UNTRUSTED: PluginId := "bad"
  const ANY := "*"
  const NEXT_MAJOR := "^2.0.0"

  /** A host that trusts one of two publishers, and a semver library that knows the two ranges. */
  ghost predicate Ordinary(c: Context)
  {
    && TRUSTED in c.host.trustedPublishers && UNTRUSTED !in c.host.trustedPublishers
    && c.sv.validRange(ANY) && c.sv.validRange(NEXT_MAJOR)
    && c.sv.satisfies(c.host.hostVersion, ANY) && c.sv.satisfies("1.0.0", ANY) && !c.sv.satisfies("1.0.0", NEXT_MAJOR)
    && exists version :: version in c.host.supportedSdkVersions && c.sv.satisfies(version, ANY)
  }

  function Plain(id: PluginId, publisher: PluginId, dependencies: seq<Dependency>, conflicts: seq<Conflict>): Manifest
  {
    Manifest(id, "1.0.0", publisher, ANY, ANY, None, None, [], None, false, None, [], [], "none", dependencies, conflicts)
  }

  lemma TrustedRuns(c: Context, id: PluginId, dependencies: seq<Dependency>, conflicts: seq<Conflict>)
    requires Ordinary(c)
    ensures RulesOf(c).runsOnHost(Plain(id, TRUSTED, dependencies, conflicts))
  {
    hide HostFindings;
    NoHostFindingsMeansRunsOn(c.sv, c.host, Plain(id, TRUSTED, dependencies, conflicts));
  }

  lemma UntrustedDoesNotRun(c: Context, id: PluginId)
    requires Ordinary(c)
    ensures !RulesOf(c).runsOnHost(Plain(id, UNTRUSTED, [], []))
  {
    hide HostFindings;
    NoHostFindingsMeansRunsOn(c.sv, c.host, Plain(id, UNTRUSTED, [], []));
  }

  lemma IndexOfTwo(a: Manifest, b: Manifest)
    ensures Index([a, b]) == if a.id == b.id then map[a.id := a] else map[a.id := a, b.id := b]
  {
    assert [a, b][..1] == [a] && [a][..0] == [];
    assert Index([a]) == map[a.id := a];
  }

  /** A plugin that could run alone and is rejected all the same is lost. */
  lemma LostAlone(c: Context, ms: seq<Manifest>, id: PluginId)
    requires id in Index(ms) && id in RejectedIds(RulesOf(c), ms) && RulesOf(c).runsOnHost(Index(ms)[id])
    requires forall d :: d in Index(ms)[id].dependencies ==> d.optional && d.id != id
    requires forall x :: x in Index(ms)[id].conflicts ==> x.id != id
    ensures !IsLargest(RulesOf(c), ms) && !ActivatesEveryAcceptedSubList(c, ms)
  {
    hide Consistent, RequiredClosure, RejectedIds, RulesOf, ActivatesEveryAcceptedSubList, Index;
    AloneIsConsistent(RulesOf(c), Index(ms), id);
    assert id in {id};
    ClosureDecides(RulesOf(c), Index(ms), id);
    IndexIsASelection(ms);
    LargestExactlyWhenNothingLostAtOnce(RulesOf(c), ms);
    LargestAcceptedSubList(c, ms);
  }

  /** A conflict with a plugin that cannot run anyway: the declaring plugin is dropped with it. */
  lemma ConflictsLosePlugins(c: Context)
    requires Ordinary(c)
    ensures var ms := [Plain("a", TRUSTED, [], [Conflict("b", ANY)]), Plain("b", UNTRUSTED, [], [])];
            && UniqueIds(ms) && !RulesOf(c).runsOnHost(ms[1])
            && !IsLargest(RulesOf(c), ms) && !ActivatesEveryAcceptedSubList(c, ms)
  {
    hide HostFindings, ActivatesEveryAcceptedSubList, IsLargest, WalkOf;
    var x := Conflict("b", ANY);
    var a, b := Plain("a", TRUSTED, [], [x]), Plain("b", UNTRUSTED, [], []);
    IndexOfTwo(a, b);
    TrustedRuns(c, "a", [], [x]);
    UntrustedDoesNotRun(c, "b");
    assert x in a.conflicts && Clashes(RulesOf(c), Index([a, b]), x);
    LostAlone(c, [a, b], "a");
  }

  /** An optional dependency on a plugin that cannot run anyway, in a version that does not match. */
  lemma OptionalDependenciesLosePlugins(c: Context)
    requires Ordinary(c)
    ensures var ms := [Plain("a", TRUSTED, [Dependency("b", NEXT_MAJOR, true)], []), Plain("b", UNTRUSTED, [], [])];
            && UniqueIds(ms) && !RulesOf(c).runsOnHost(ms[1])
            && !IsLargest(RulesOf(c), ms) && !ActivatesEveryAcceptedSubList(c, ms)
  {
    hide HostFindings, ActivatesEveryAcceptedSubList, IsLargest, WalkOf;
    var d := Dependency("b", NEXT_MAJOR, true);
    var a, b := Plain("a", TRUSTED, [d], []), Plain("b", UNTRUSTED, [], []);
    IndexOfTwo(a, b);
    TrustedRuns(c, "a", [d], []);
    UntrustedDoesNotRun(c, "b");
    assert d in a.dependencies && Unmet(RulesOf(c), Index([a, b]), d);
    LostAlone(c, [a, b], "a");
  }

  /** One plugin given twice is dropped altogether. */
  lemma DuplicatesLosePlugins(c: Context)
    requires Ordinary(c)
    ensures var ms := [Plain("a", TRUSTED, [], []), Plain("a", TRUSTED, [], [])];
            !UniqueIds(ms) && !IsLargest(RulesOf(c), ms) && !ActivatesEveryAcceptedSubList(c, ms)
  {
    hide HostFindings, ActivatesEveryAcceptedSubList, IsLargest, WalkOf;
    var a := Plain("a", TRUSTED, [], []);
    IndexOfTwo(a, a);
    TrustedRuns(c, "a", [], []);
    assert [a, a][0].id == "a" && [a, a][1].id == "a";
    assert Duplicated([a, a], "a");
    LostAlone(c, [a, a], "a");
  }
}
