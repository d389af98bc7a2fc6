/**
 The isolated resolution of a plugin set (packages/plugin-runtime/src/resolver.ts:441-493): issues and
 issue lists on top of the plain consistency rules.
 */
module IsolatedResolver {
  import opened Results
  import opened Sorting
  import opened Manifests
  import opened DependencyGraph
  import opened Resolver
  import opened ConsistentSubsets

  datatype Context = Context(sv: Semver, host: Host)

  function RulesOf(c: Context): Rules
  {
    Rules((m: Manifest) => HostFindings(c.sv, c.host, m) == [],
          (version: string, range: string) => c.sv.RangeMatches(version, range) == Some(true),
          (version: string, range: string) => c.sv.RangeMatches(version, range) != Some(false))
  }

  lemma UnmetIsReported(c: Context, byId: PluginIndex, m: Manifest, d: Dependency)
    ensures DependencyFinding(c.sv, byId, m, d).Some? <==> Unmet(RulesOf(c), byId, d)
  {
  }

  lemma ClashIsReported(c: Context, byId: PluginIndex, m: Manifest, x: Conflict)
    ensures ConflictFinding(c.sv, byId, m, x).Some? <==> Clashes(RulesOf(c), byId, x)
  {
  }

  /** An issue of the manifest itself: declared relationships or the host. */
  ghost predicate OwnIssue(c: Context, byId: PluginIndex, id: PluginId, i: Issue)
    requires id in byId
  {
    DeclaredIssue(c.sv, byId, byId[id], i) || i in HostFindings(c.sv, c.host, byId[id])
  }

  lemma FlaggedIsReported(c: Context, byId: PluginIndex, id: PluginId)
    requires id in byId
    ensures Flagged(RulesOf(c), byId, id) <==> exists i :: OwnIssue(c, byId, id, i)
  {
    var R, m := RulesOf(c), byId[id];
    if i :| OwnIssue(c, byId, id, i) {
      if d :| d in m.dependencies && DependencyFinding(c.sv, byId, m, d) == Some(i) {
        UnmetIsReported(c, byId, m, d);
      } else if x :| x in m.conflicts && ConflictFinding(c.sv, byId, m, x) == Some(i) {
        ClashIsReported(c, byId, m, x);
      }
    }
    if d :| d in m.dependencies && Unmet(R, byId, d) {
      UnmetIsReported(c, byId, m, d);
      assert OwnIssue(c, byId, id, DependencyFinding(c.sv, byId, m, d).value);
    } else if x :| x in m.conflicts && Clashes(R, byId, x) {
      ClashIsReported(c, byId, m, x);
      assert OwnIssue(c, byId, id, ConflictFinding(c.sv, byId, m, x).value);
    } else if !R.runsOnHost(m) {
      assert HostFindings(c.sv, c.host, m)[0] in HostFindings(c.sv, c.host, m);
      assert OwnIssue(c, byId, id, HostFindings(c.sv, c.host, m)[0]);
    }
  }

  lemma IssueKinds(c: Context, ms: seq<Manifest>, i: Issue)
    ensures SetIssue(c.sv, c.host, ms, i) <==>
      || (i == DuplicateIssue(i.pluginId) && Duplicated(ms, i.pluginId))
      || (i == CycleIssue(i.pluginId) && i.pluginId in WalkOf(ms).cyclic)
      || (i.pluginId in Index(ms) && OwnIssue(c, Index(ms), i.pluginId, i))
  {
  }

  lemma OwnIssueNamesItsPlugin(c: Context, byId: PluginIndex, id: PluginId, i: Issue)
    requires id in byId && byId[id].id == id && OwnIssue(c, byId, id, i)
    ensures i.pluginId == id
  {
  }

  /** The plugins named by the issues of one round are exactly the rejected ones. */
  lemma NamedIsRejected(c: Context, ms: seq<Manifest>, id: PluginId)
    ensures id in RejectedIds(RulesOf(c), ms) <==> exists i :: SetIssue(c.sv, c.host, ms, i) && i.pluginId == id
  {
    var byId := Index(ms);
    CyclesAreReported(GraphOf(byId), RootsOf(ms));
    if id in byId { FlaggedIsReported(c, byId, id); }
    if id in RejectedIds(RulesOf(c), ms) {
      if Duplicated(ms, id) {
        IssueKinds(c, ms, DuplicateIssue(id));
      } else if id in WalkOf(ms).cyclic {
        IssueKinds(c, ms, CycleIssue(id));
      } else {
        var i :| OwnIssue(c, byId, id, i);
        OwnIssueNamesItsPlugin(c, byId, id, i);
        IssueKinds(c, ms, i);
      }
    }
    if i :| SetIssue(c.sv, c.host, ms, i) && i.pluginId == id {
      IssueKinds(c, ms, i);
      if Duplicated(ms, id) {
        var j, k :| 0 <= j < k < |ms| && ms[j].id == id && ms[k].id == id;
        assert ms[j] in ms;
      }
    }
  }

  /** A set resolves without issues exactly when it is compatible. */
  lemma NoIssuesMeansCompatible(c: Context, ms: seq<Manifest>)
    ensures (forall i :: !SetIssue(c.sv, c.host, ms, i)) <==> Compatible(RulesOf(c), ms)
  {
    NobodyNamedWhenCompatible(RulesOf(c), ms);
    forall id ensures id in RejectedIds(RulesOf(c), ms) <==> exists i :: SetIssue(c.sv, c.host, ms, i) && i.pluginId == id {
      NamedIsRejected(c, ms, id);
    }
    if RejectedIds(RulesOf(c), ms) == {} {
      forall i ensures !SetIssue(c.sv, c.host, ms, i) {
        assert i.pluginId !in RejectedIds(RulesOf(c), ms);
      }
    }
  }

  /** An issue some round of the loop reports. */
  ghost predicate RoundIssue(c: Context, ms: seq<Manifest>, i: Issue)
    decreases |ms|
  {
    if ms == [] || Compatible(RulesOf(c), ms) then false else
      FailingRoundShrinks(RulesOf(c), ms);
      SetIssue(c.sv, c.host, ms, i) || RoundIssue(c, Drop(ms, RejectedIds(RulesOf(c), ms)), i)
  }

  function NamedIds(issues: seq<Issue>): set<PluginId>
  {
    set k | 0 <= k < |issues| :: issues[k].pluginId
  }

  lemma NamedIdsAreRejected(c: Context, ms: seq<Manifest>, issues: seq<Issue>)
    requires forall i :: i in issues <==> SetIssue(c.sv, c.host, ms, i)
    ensures NamedIds(issues) == RejectedIds(RulesOf(c), ms)
  {
    forall id ensures id in NamedIds(issues) <==> id in RejectedIds(RulesOf(c), ms) {
      NamedIsRejected(c, ms, id);
      if i :| SetIssue(c.sv, c.host, ms, i) && i.pluginId == id {
        assert i in issues;
      }
      if id in NamedIds(issues) {
        var k :| 0 <= k < |issues| && issues[k].pluginId == id;
        assert SetIssue(c.sv, c.host, ms, issues[k]);
      }
    }
  }

  /** The activation order of the isolated resolution. */
  ghost function IsolatedOrder(c: Context, ms: seq<Manifest>): seq<PluginId>
  {
    if Isolate(RulesOf(c), ms) == [] then [] else WalkOf(Isolate(RulesOf(c), ms)).order
  }

  method ResolveIsolated(c: Context, ms: seq<Manifest>) returns (r: IsolatedResolution)
    ensures r.activationOrder == IsolatedOrder(c, ms)
    ensures forall i :: i in r.issues <==> RoundIssue(c, ms, i)
    ensures NoDuplicates(r.issues)
    ensures forall id :: id in r.disabled <==> exists i :: i in r.issues && i.pluginId == id
  {
    var remaining := ms;
    var issues: seq<Issue> := [];
    var disabled: set<PluginId> := {};
    while |remaining| > 0
      invariant Isolate(RulesOf(c), ms) == Isolate(RulesOf(c), remaining)
      invariant NoDuplicates(issues)
      invariant forall i :: RoundIssue(c, ms, i) <==> i in issues || RoundIssue(c, remaining, i)
      invariant forall id :: id in disabled <==> exists i :: i in issues && i.pluginId == id
      decreases |remaining|
    {
      var resolution := ResolvePluginSet(c.sv, remaining, c.host);
      NoIssuesMeansCompatible(c, remaining);
      assert resolution.issues != [] ==> SetIssue(c.sv, c.host, remaining, resolution.issues[0]);
      if resolution.compatible {
        assert forall i :: !SetIssue(c.sv, c.host, remaining, i);
        return IsolatedResolution(resolution.activationOrder, disabled, issues);
      }
      var rejected := NamedIds(resolution.issues);
      NamedIdsAreRejected(c, remaining, resolution.issues);
      FailingRoundShrinks(RulesOf(c), remaining);
      issues, disabled := MergeIssues(issues, disabled, resolution.issues);
      remaining := Drop(remaining, rejected);
    }
    return IsolatedResolution([], disabled, issues);
  }

  /** The inner loop: issues not yet listed are added, and their plugins disabled. */
  method MergeIssues(listed: seq<Issue>, off: set<PluginId>, found: seq<Issue>)
    returns (issues: seq<Issue>, disabled: set<PluginId>)
    requires NoDuplicates(listed)
    requires forall id :: id in off <==> exists i :: i in listed && i.pluginId == id
    ensures NoDuplicates(issues) && forall i :: i in issues <==> i in listed || i in found
    ensures forall id :: id in disabled <==> exists i :: i in issues && i.pluginId == id
  {
    issues, disabled := listed, off;
    var n := 0;
    while n < |found|
      invariant 0 <= n <= |found| && NoDuplicates(issues)
      invariant forall i :: i in issues <==> i in listed || i in found[..n]
      invariant forall id :: id in disabled <==> exists i :: i in issues && i.pluginId == id
    {
      assert found[..n + 1] == found[..n] + [found[n]];
      ghost var before := issues;
      if found[n] !in issues {
        issues := issues + [found[n]];
      }
      assert found[n] in issues && forall i :: i in issues <==> i in before || i == found[n];
      disabled := disabled + {found[n].pluginId};
      n := n + 1;
    }
    assert found[..n] == found;
  }

  // ---------------------------------------------------------------- the largest accepted sub-list

  /** `resolvePluginSetV1` finds no issue. */
  ghost predicate Accepts(c: Context, ms: seq<Manifest>)
  {
    forall i :: !SetIssue(c.sv, c.host, ms, i)
  }

  lemma OrderListsTheIsolated(c: Context, ms: seq<Manifest>)
    ensures forall id :: id in IsolatedOrder(c, ms) <==> id in Index(Isolate(RulesOf(c), ms))
  {
    hide Compatible, WalkOf;
    IsolatedIsCompatible(RulesOf(c), ms);
  }

  ghost predicate ActivatesEveryAcceptedSubList(c: Context, ms: seq<Manifest>)
  {
    forall sub :: IsSubList(sub, ms) && Accepts(c, sub) ==> forall m: Manifest :: m in sub ==> m.id in IsolatedOrder(c, ms)
  }

  /**
   The promise of the source in its own terms: the isolated resolution activates every plugin of every
   sub-list that resolves without issue, if and only if nothing is lost in the first round.
   */
  lemma LargestAcceptedSubList(c: Context, ms: seq<Manifest>)
    ensures ActivatesEveryAcceptedSubList(c, ms) <==> NoSelectionLoses(RulesOf(c), ms)
  {
    hide Accepts, Compatible, NoSelectionLoses, IsolatedOrder, Isolate, RulesOf, IsSubList;
    LargestOfAllSubLists(RulesOf(c), ms);
    OrderListsTheIsolated(c, ms);
    forall sub ensures Accepts(c, sub) <==> Compatible(RulesOf(c), sub) {
      AcceptedIsCompatible(c, sub);
    }
    if ActivatesEveryAcceptedSubList(c, ms) {
      forall sub | IsSubList(sub, ms) && Compatible(RulesOf(c), sub)
        ensures Index(sub).Keys <= Index(Isolate(RulesOf(c), ms)).Keys
      {
        assert Accepts(c, sub);
        assert forall id :: id in Index(sub) ==> Index(sub)[id] in sub;
      }
    } else {
      var sub, m: Manifest :| IsSubList(sub, ms) && Accepts(c, sub) && m in sub && m.id !in IsolatedOrder(c, ms);
      assert Compatible(RulesOf(c), sub) && m.id in Index(sub);
    }
  }

  lemma AcceptedIsCompatible(c: Context, ms: seq<Manifest>)
    ensures Accepts(c, ms) <==> Compatible(RulesOf(c), ms)
  {
    NoIssuesMeansCompatible(c, ms);
  }
}
