/**
 The dependency resolver (packages/plugin-runtime/src/resolver.ts:121-493).

 A resolution carries the set of issues it found as a sequence whose order means nothing: the source
 sorts issues by locale. The methods follow the loops of the source; the predicates say, for every
 manifest list and every issue, whether it is reported.
 */
module Resolver {
  import opened Results
  import opened Sorting
  import opened Manifests
  import opened DependencyGraph

  datatype IssueCode =
    | DuplicatePlugin
    | UntrustedPublisher
    | InvalidVersionRange
    | IncompatibleHost
    | IncompatibleSdk
    | UnsupportedFrontendProtocol
    | UnsupportedBackendProtocol
    | IncompatibleSharedRuntime
    | MissingSlot
    | UnknownPermission
    | UnapprovedEgressPolicy
    | MissingDependency
    | IncompatibleDependency
    | DependencyCycle
    | PluginConflict

  datatype Issue = Issue(code: IssueCode, pluginId: PluginId, field: string, related: Option<PluginId>, detail: Option<string>)

  datatype Resolution = Resolution(compatible: bool, activationOrder: seq<PluginId>, issues: seq<Issue>)

  datatype IsolatedResolution = IsolatedResolution(activationOrder: seq<PluginId>, disabled: set<PluginId>, issues: seq<Issue>)

  type PluginIndex = map<PluginId, Manifest>

  // ---------------------------------------------------------------- indexing

  /** The manifests by id; the first of several with one id wins. */
  function Index(ms: seq<Manifest>): (r: PluginIndex)
    ensures forall id :: id in r ==> r[id].id == id && r[id] in ms
    ensures forall m :: m in ms ==> m.id in r
  {
    if ms == [] then map[] else
      var rest := Index(ms[..|ms| - 1]);
      var last := ms[|ms| - 1];
      assert ms == ms[..|ms| - 1] + [last];
      if last.id in rest then rest else rest[last.id := last]
  }

  /** Of several manifests with one id the index holds the first. */
  lemma {:induction false} IndexHoldsTheFirst(ms: seq<Manifest>, j: nat)
    requires j < |ms| && forall k :: 0 <= k < j ==> ms[k].id != ms[j].id
    ensures Index(ms)[ms[j].id] == ms[j]
  {
    var n := |ms| - 1;
    assert ms[..n + 1] == ms;
    if j < n {
      IndexHoldsTheFirst(ms[..n], j);
    } else {
      assert ms[j].id !in Index(ms[..n]);
    }
  }

  /** The ids in the order the index was filled. */
  function IndexIds(ms: seq<Manifest>): (r: seq<PluginId>)
    ensures NoDuplicates(r) && forall id :: id in r <==> id in Index(ms)
  {
    if ms == [] then [] else
      var rest := IndexIds(ms[..|ms| - 1]);
      var last := ms[|ms| - 1];
      if last.id in Index(ms[..|ms| - 1]) then rest else rest + [last.id]
  }

  function DuplicateIssue(id: PluginId): Issue
  {
    Issue(DuplicatePlugin, id, "metadata.id", None, None)
  }

  ghost predicate Duplicated(ms: seq<Manifest>, id: PluginId)
  {
    exists j, k :: 0 <= j < k < |ms| && ms[j].id == id && ms[k].id == id
  }

  function DuplicateFindings(ms: seq<Manifest>): seq<Issue>
  {
    if ms == [] then [] else
      var last := ms[|ms| - 1];
      DuplicateFindings(ms[..|ms| - 1]) + (if last.id in Index(ms[..|ms| - 1]) then [DuplicateIssue(last.id)] else [])
  }

  /** The two results of the loop and its list of duplicates, as one fold. */
  datatype Indexing = Indexing(byId: PluginIndex, ids: seq<PluginId>, issues: seq<Issue>)

  function AddManifest(x: Indexing, m: Manifest): Indexing
  {
    if m.id in x.byId then x.(issues := x.issues + [DuplicateIssue(m.id)])
    else x.(byId := x.byId[m.id := m], ids := x.ids + [m.id])
  }

  function Indexed(ms: seq<Manifest>): Indexing
  {
    if ms == [] then Indexing(map[], [], []) else AddManifest(Indexed(ms[..|ms| - 1]), ms[|ms| - 1])
  }

  lemma {:induction false} IndexedIsTheIndex(ms: seq<Manifest>)
    ensures Indexed(ms) == Indexing(Index(ms), IndexIds(ms), DuplicateFindings(ms))
  {
    if ms != [] {
      IndexedIsTheIndex(ms[..|ms| - 1]);
      OneMoreManifest(ms[..|ms| - 1], ms[|ms| - 1], ms);
    }
  }

  /** What one more manifest adds to the index, its ids and the duplicates. */
  lemma OneMoreManifest(before: seq<Manifest>, m: Manifest, ms: seq<Manifest>)
    requires ms != [] && before == ms[..|ms| - 1] && m == ms[|ms| - 1]
    ensures var known := m.id in Index(before);
            && Index(ms) == (if known then Index(before) else Index(before)[m.id := m])
            && IndexIds(ms) == (if known then IndexIds(before) else IndexIds(before) + [m.id])
            && DuplicateFindings(ms) == DuplicateFindings(before) + (if known then [DuplicateIssue(m.id)] else [])
  {
  }

  method IndexLoop(ms: seq<Manifest>) returns (byId: PluginIndex, ids: seq<PluginId>, issues: seq<Issue>)
    ensures Indexing(byId, ids, issues) == Indexed(ms)
  {
    byId, ids, issues := map[], [], [];
    var n := 0;
    while n < |ms|
      invariant 0 <= n <= |ms| && Indexing(byId, ids, issues) == Indexed(ms[..n])
    {
      var pluginId := ms[n].id;
      assert ms[..n + 1][..n] == ms[..n];
      if pluginId in byId {
        issues := issues + [DuplicateIssue(pluginId)];
      } else {
        byId := byId[pluginId := ms[n]];
        ids := ids + [pluginId];
      }
      n := n + 1;
    }
    assert ms[..n] == ms;
  }

  method IndexManifests(ms: seq<Manifest>) returns (byId: PluginIndex, ids: seq<PluginId>, issues: seq<Issue>)
    ensures byId == Index(ms) && ids == IndexIds(ms) && issues == DuplicateFindings(ms)
  {
    byId, ids, issues := IndexLoop(ms);
    IndexedIsTheIndex(ms);
  }

  lemma {:induction false} DuplicatesAreReported(ms: seq<Manifest>)
    ensures forall i :: i in DuplicateFindings(ms) <==> i == DuplicateIssue(i.pluginId) && Duplicated(ms, i.pluginId)
  {
    if ms != [] {
      var n := |ms| - 1;
      DuplicatesAreReported(ms[..n]);
      DuplicatedGrows(ms, n);
      assert ms[..n + 1] == ms;
    }
  }

  lemma DuplicatedGrows(ms: seq<Manifest>, n: nat)
    requires n < |ms|
    ensures forall id :: Duplicated(ms[..n + 1], id) <==>
              Duplicated(ms[..n], id) || (id == ms[n].id && id in Index(ms[..n]))
  {
    forall id ensures Duplicated(ms[..n + 1], id) <==> Duplicated(ms[..n], id) || (id == ms[n].id && id in Index(ms[..n])) {
      if Duplicated(ms[..n + 1], id) { OneMoreDuplicates(ms, n, id); }
      if Duplicated(ms[..n], id) || (id == ms[n].id && id in Index(ms[..n])) { DuplicatesStay(ms, n, id); }
    }
  }

  lemma OneMoreDuplicates(ms: seq<Manifest>, n: nat, id: PluginId)
    requires n < |ms| && Duplicated(ms[..n + 1], id)
    ensures Duplicated(ms[..n], id) || (id == ms[n].id && id in Index(ms[..n]))
  {
    var before, after := ms[..n], ms[..n + 1];
    var j, k :| 0 <= j < k < |after| && after[j].id == id && after[k].id == id;
    assert before[j] in before;
    if k < n { assert before[j].id == id && before[k].id == id; }
  }

  lemma DuplicatesStay(ms: seq<Manifest>, n: nat, id: PluginId)
    requires n < |ms|
    requires Duplicated(ms[..n], id) || (id == ms[n].id && id in Index(ms[..n]))
    ensures Duplicated(ms[..n + 1], id)
  {
    var before, after := ms[..n], ms[..n + 1];
    if Duplicated(before, id) {
      var j, k :| 0 <= j < k < n && before[j].id == id && before[k].id == id;
      assert after[j].id == id && after[k].id == id;
    } else {
      var j :| 0 <= j < n && before[j] == Index(before)[id];
      assert after[j].id == id && after[n].id == id;
    }
  }

  // ---------------------------------------------------------------- relationships

  /** What one declared dependency gives rise to. */
  function DependencyFinding(sv: Semver, byId: PluginIndex, m: Manifest, d: Dependency): (r: Option<Issue>)
    ensures r.Some? ==> r.value.pluginId == m.id
  {
    if d.id !in byId then
      if d.optional then None else Some(Issue(MissingDependency, m.id, "dependencies", Some(d.id), None))
    else
      match sv.RangeMatches(byId[d.id].version, d.version)
      case None => Some(Issue(InvalidVersionRange, m.id, "dependencies.version", Some(d.id), None))
      case Some(matches) =>
        if matches then None else Some(Issue(IncompatibleDependency, m.id, "dependencies.version", Some(d.id), None))
  }

  function ConflictFinding(sv: Semver, byId: PluginIndex, m: Manifest, c: Conflict): (r: Option<Issue>)
    ensures r.Some? ==> r.value.pluginId == m.id
  {
    if c.id !in byId then None
    else
      match sv.RangeMatches(byId[c.id].version, c.version)
      case None => Some(Issue(InvalidVersionRange, m.id, "conflicts.version", Some(c.id), None))
      case Some(matches) => if matches then Some(Issue(PluginConflict, m.id, "conflicts", Some(c.id), None)) else None
  }

  ghost predicate DeclaredIssue(sv: Semver, byId: PluginIndex, m: Manifest, i: Issue)
  {
    || (exists d :: d in m.dependencies && DependencyFinding(sv, byId, m, d) == Some(i))
    || (exists c :: c in m.conflicts && ConflictFinding(sv, byId, m, c) == Some(i))
  }

  /** Some required dependency that is not there. */
  ghost predicate MissesDependency(byId: PluginIndex, m: Manifest, id: PluginId)
  {
    exists d :: d in m.dependencies && d.id == id && !d.optional && id !in byId
  }

  /** A declared dependency is there, and matching its version range answers so. */
  ghost predicate DependencyMatches(sv: Semver, byId: PluginIndex, m: Manifest, id: PluginId, answer: Option<bool>)
  {
    exists d :: d in m.dependencies && d.id == id && id in byId && sv.RangeMatches(byId[id].version, d.version) == answer
  }

  /** A declared conflict is with a plugin that is there, and matching its version range answers so. */
  ghost predicate ConflictMatches(sv: Semver, byId: PluginIndex, m: Manifest, id: PluginId, answer: Option<bool>)
  {
    exists c :: c in m.conflicts && c.id == id && id in byId && sv.RangeMatches(byId[id].version, c.version) == answer
  }

  /** For each issue a plugin's own declarations can give rise to, the exact condition. */
  lemma DeclaredIssuesAreThese(sv: Semver, byId: PluginIndex, m: Manifest, i: Issue)
    ensures DeclaredIssue(sv, byId, m, i) <==>
              && i.pluginId == m.id && i.related.Some? && i.detail.None?
              && match i.code
                 case MissingDependency => i.field == "dependencies" && MissesDependency(byId, m, i.related.value)
                 case IncompatibleDependency =>
                   i.field == "dependencies.version" && DependencyMatches(sv, byId, m, i.related.value, Some(false))
                 case PluginConflict => i.field == "conflicts" && ConflictMatches(sv, byId, m, i.related.value, Some(true))
                 case InvalidVersionRange =>
                   || (i.field == "dependencies.version" && DependencyMatches(sv, byId, m, i.related.value, None))
                   || (i.field == "conflicts.version" && ConflictMatches(sv, byId, m, i.related.value, None))
                 case _ => false
  {
    DependencyIssuesAreThese(sv, byId, m, i);
    ConflictIssuesAreThese(sv, byId, m, i);
  }

  lemma DependencyIssuesAreThese(sv: Semver, byId: PluginIndex, m: Manifest, i: Issue)
    ensures (exists d :: d in m.dependencies && DependencyFinding(sv, byId, m, d) == Some(i)) <==>
              && i.pluginId == m.id && i.related.Some? && i.detail.None?
              && match i.code
                 case MissingDependency => i.field == "dependencies" && MissesDependency(byId, m, i.related.value)
                 case IncompatibleDependency =>
                   i.field == "dependencies.version" && DependencyMatches(sv, byId, m, i.related.value, Some(false))
                 case InvalidVersionRange => i.field == "dependencies.version" && DependencyMatches(sv, byId, m, i.related.value, None)
                 case _ => false
  {
  }

  lemma ConflictIssuesAreThese(sv: Semver, byId: PluginIndex, m: Manifest, i: Issue)
    ensures (exists c :: c in m.conflicts && ConflictFinding(sv, byId, m, c) == Some(i)) <==>
              && i.pluginId == m.id && i.related.Some? && i.detail.None?
              && match i.code
                 case PluginConflict => i.field == "conflicts" && ConflictMatches(sv, byId, m, i.related.value, Some(true))
                 case InvalidVersionRange => i.field == "conflicts.version" && ConflictMatches(sv, byId, m, i.related.value, None)
                 case _ => false
  {
  }

  function Found(finding: Option<Issue>): seq<Issue>
  {
    if finding.Some? then [finding.value] else []
  }

  function DependencyFindings(sv: Semver, byId: PluginIndex, m: Manifest, ds: seq<Dependency>): (r: seq<Issue>)
    ensures forall i :: i in r <==> exists d :: d in ds && DependencyFinding(sv, byId, m, d) == Some(i)
  {
    if ds == [] then [] else
      assert ds == ds[..|ds| - 1] + [ds[|ds| - 1]];
      DependencyFindings(sv, byId, m, ds[..|ds| - 1]) + Found(DependencyFinding(sv, byId, m, ds[|ds| - 1]))
  }

  function ConflictFindings(sv: Semver, byId: PluginIndex, m: Manifest, cs: seq<Conflict>): (r: seq<Issue>)
    ensures forall i :: i in r <==> exists c :: c in cs && ConflictFinding(sv, byId, m, c) == Some(i)
  {
    if cs == [] then [] else
      assert cs == cs[..|cs| - 1] + [cs[|cs| - 1]];
      ConflictFindings(sv, byId, m, cs[..|cs| - 1]) + Found(ConflictFinding(sv, byId, m, cs[|cs| - 1]))
  }

  lemma OneMoreDependency(sv: Semver, byId: PluginIndex, m: Manifest, ds: seq<Dependency>, n: nat)
    requires n < |ds|
    ensures DependencyFindings(sv, byId, m, ds[..n + 1])
              == DependencyFindings(sv, byId, m, ds[..n]) + Found(DependencyFinding(sv, byId, m, ds[n]))
  {
    hide DependencyFinding;
    assert ds[..n + 1][..n] == ds[..n];
  }

  lemma NoDependencies(sv: Semver, byId: PluginIndex, m: Manifest)
    ensures DependencyFindings(sv, byId, m, []) == []
  {
  }

  method CheckDependencies(sv: Semver, byId: PluginIndex, m: Manifest) returns (issues: seq<Issue>)
    ensures issues == DependencyFindings(sv, byId, m, m.dependencies)
  {
    hide DependencyFindings;
    issues := [];
    var n := 0;
    NoDependencies(sv, byId, m);
    while n < |m.dependencies|
      invariant 0 <= n <= |m.dependencies| && issues == DependencyFindings(sv, byId, m, m.dependencies[..n])
    {
      var dependency := m.dependencies[n];
      OneMoreDependency(sv, byId, m, m.dependencies, n);
      if dependency.id !in byId {
        if !dependency.optional {
          issues := issues + [Issue(MissingDependency, m.id, "dependencies", Some(dependency.id), None)];
        }
      } else {
        var inRange := sv.RangeMatches(byId[dependency.id].version, dependency.version);
        if inRange.None? {
          issues := issues + [Issue(InvalidVersionRange, m.id, "dependencies.version", Some(dependency.id), None)];
        } else if !inRange.value {
          issues := issues + [Issue(IncompatibleDependency, m.id, "dependencies.version", Some(dependency.id), None)];
        }
      }
      n := n + 1;
    }
    assert m.dependencies[..n] == m.dependencies;
  }

  method CheckConflicts(sv: Semver, byId: PluginIndex, m: Manifest) returns (issues: seq<Issue>)
    ensures issues == ConflictFindings(sv, byId, m, m.conflicts)
  {
    issues := [];
    var n := 0;
    while n < |m.conflicts|
      invariant 0 <= n <= |m.conflicts| && issues == ConflictFindings(sv, byId, m, m.conflicts[..n])
    {
      var conflict := m.conflicts[n];
      assert m.conflicts[..n + 1][..n] == m.conflicts[..n];
      if conflict.id in byId {
        var inRange := sv.RangeMatches(byId[conflict.id].version, conflict.version);
        if inRange.None? {
          issues := issues + [Issue(InvalidVersionRange, m.id, "conflicts.version", Some(conflict.id), None)];
        } else if inRange.value {
          issues := issues + [Issue(PluginConflict, m.id, "conflicts", Some(conflict.id), None)];
        }
      }
      n := n + 1;
    }
    assert m.conflicts[..n] == m.conflicts;
  }

  // ---------------------------------------------------------------- the dependency graph

  function IdCode(id: PluginId): seq<int>
  {
    seq(|id|, i requires 0 <= i < |id| => id[i] as int)
  }

  function PresentDependencies(byId: PluginIndex, ds: seq<Dependency>): (r: seq<PluginId>)
    ensures forall id :: id in r <==> id in byId && exists d :: d in ds && d.id == id
  {
    if ds == [] then [] else
      assert ds == [ds[0]] + ds[1..];
      (if ds[0].id in byId then [ds[0].id] else []) + PresentDependencies(byId, ds[1..])
  }

  function SortedDependencies(byId: PluginIndex, m: Manifest): (r: seq<PluginId>)
    ensures forall id :: id in r <==> id in byId && exists d :: d in m.dependencies && d.id == id
  {
    MembersOfSort(IdCode, PresentDependencies(byId, m.dependencies));
    Sort(IdCode, PresentDependencies(byId, m.dependencies))
  }

  function GraphOf(byId: PluginIndex): (g: Graph<PluginId>)
    ensures Closed(g) && g.Keys == byId.Keys
  {
    map id | id in byId :: SortedDependencies(byId, byId[id])
  }

  function RootsOf(ms: seq<Manifest>): (r: seq<PluginId>)
    ensures Roots(GraphOf(Index(ms)), r)
  {
    MembersOfSort(IdCode, IndexIds(ms));
    Sort(IdCode, IndexIds(ms))
  }

  /** The walk over the plugins of a manifest list. */
  function WalkOf(ms: seq<Manifest>): Walk<PluginId>
  {
    WalkFrom(GraphOf(Index(ms)), RootsOf(ms))
  }

  lemma IdsAreTheirCode()
    ensures Injective(IdCode)
  {
    forall a, b: PluginId | IdCode(a) == IdCode(b) ensures a == b {
      assert |a| == |b|;
      assert forall i :: 0 <= i < |a| ==> IdCode(a)[i] == a[i] as int && IdCode(b)[i] == b[i] as int;
    }
  }

  /** The walk starts with the plugins in ascending order of their ids, so the order they are listed in makes no difference. */
  lemma ListingOrderIsIrrelevant(a: seq<Manifest>, b: seq<Manifest>)
    requires Index(a) == Index(b)
    ensures StrictlySorted(IdCode, RootsOf(a)) && WalkOf(a) == WalkOf(b)
  {
    IdsAreTheirCode();
    SortSorts(IdCode, IndexIds(a));
    SortIgnoresOrder(IdCode, IndexIds(a), IndexIds(b));
  }

  ghost predicate DeclaresDependency(m: Manifest, id: PluginId)
  {
    exists d :: d in m.dependencies && d.id == id
  }

  /** Nor does the order in which a plugin declares its dependencies. */
  lemma DeclarationOrderIsIrrelevant(byId: PluginIndex, m: Manifest, n: Manifest)
    requires NoDuplicates(PresentDependencies(byId, m.dependencies)) && NoDuplicates(PresentDependencies(byId, n.dependencies))
    requires forall id :: DeclaresDependency(m, id) <==> DeclaresDependency(n, id)
    ensures StrictlySorted(IdCode, SortedDependencies(byId, m)) && SortedDependencies(byId, m) == SortedDependencies(byId, n)
  {
    IdsAreTheirCode();
    SortSorts(IdCode, PresentDependencies(byId, m.dependencies));
    assert forall id :: id in PresentDependencies(byId, m.dependencies) <==> id in byId && DeclaresDependency(m, id);
    SortIgnoresOrder(IdCode, PresentDependencies(byId, m.dependencies), PresentDependencies(byId, n.dependencies));
  }

  function CycleIssue(id: PluginId): Issue
  {
    Issue(DependencyCycle, id, "dependencies", None, None)
  }

  ghost predicate RelationshipIssue(sv: Semver, ms: seq<Manifest>, i: Issue)
  {
    || (i == DuplicateIssue(i.pluginId) && Duplicated(ms, i.pluginId))
    || (i.pluginId in Index(ms) && DeclaredIssue(sv, Index(ms), Index(ms)[i.pluginId], i))
    || (i == CycleIssue(i.pluginId) && i.pluginId in WalkOf(ms).cyclic)
  }

  predicate IsCycleIssue(i: Issue, cyclic: set<PluginId>)
  {
    i == CycleIssue(i.pluginId) && i.pluginId in cyclic
  }

  lemma OneMoreDeclared(sv: Semver, byId: PluginIndex, ids: seq<PluginId>, n: nat)
    requires n < |ids| && forall id :: id in ids ==> id in byId
    ensures AllDeclared(sv, byId, ids[..n + 1])
              == AllDeclared(sv, byId, ids[..n])
                 + (DependencyFindings(sv, byId, byId[ids[n]], byId[ids[n]].dependencies)
                    + ConflictFindings(sv, byId, byId[ids[n]], byId[ids[n]].conflicts))
  {
    hide DependencyFindings, ConflictFindings;
    assert ids[..n + 1][..n] == ids[..n];
  }

  lemma NobodyDeclares(sv: Semver, byId: PluginIndex)
    ensures AllDeclared(sv, byId, []) == []
  {
  }

  /** The loop over `byId.values()`. */
  method CheckAll(sv: Semver, byId: PluginIndex, ids: seq<PluginId>) returns (issues: seq<Issue>)
    requires forall id :: id in ids ==> id in byId
    ensures issues == AllDeclared(sv, byId, ids)
  {
    hide AllDeclared, DependencyFindings, ConflictFindings;
    issues := [];
    var n := 0;
    NobodyDeclares(sv, byId);
    while n < |ids|
      invariant 0 <= n <= |ids| && issues == AllDeclared(sv, byId, ids[..n])
    {
      OneMoreDeclared(sv, byId, ids, n);
      var fromDependencies := CheckDependencies(sv, byId, byId[ids[n]]);
      var fromConflicts := CheckConflicts(sv, byId, byId[ids[n]]);
      issues := issues + (fromDependencies + fromConflicts);
      n := n + 1;
    }
    assert ids[..n] == ids;
  }

  /** The loop over `cyclic`. */
  method CycleIssues(cyclic: set<PluginId>) returns (issues: seq<Issue>)
    ensures forall i :: i in issues <==> IsCycleIssue(i, cyclic)
  {
    issues := [];
    var pending := cyclic;
    while pending != {}
      invariant pending <= cyclic
      invariant forall i :: i in issues <==> IsCycleIssue(i, cyclic - pending)
    {
      var pluginId :| pluginId in pending;
      issues := issues + [CycleIssue(pluginId)];
      assert cyclic - (pending - {pluginId}) == (cyclic - pending) + {pluginId};
      pending := pending - {pluginId};
    }
  }

  method ResolveRelationships(sv: Semver, ms: seq<Manifest>) returns (r: Resolution)
    ensures forall i :: i in r.issues <==> RelationshipIssue(sv, ms, i)
    ensures r.compatible <==> r.issues == []
    ensures r.activationOrder == if r.compatible then WalkOf(ms).order else []
  {
    var byId, ids, duplicates := IndexManifests(ms);
    var declared := CheckAll(sv, byId, ids);
    var order: seq<PluginId>, cyclic: set<PluginId> := RunWalk(ms, byId);
    var cycles := CycleIssues(cyclic);
    var issues := duplicates + declared + cycles;
    DuplicatesAreReported(ms);
    DeclaredAreReported(sv, ms);
    forall i ensures i in issues <==> RelationshipIssue(sv, ms, i) {
      assert i in issues <==> i in duplicates || i in declared || i in cycles;
    }
    r := Resolution(issues == [], if issues == [] then order else [], issues);
  }

  function DeclaredFindings(sv: Semver, byId: PluginIndex, m: Manifest): (r: seq<Issue>)
    ensures forall i :: i in r <==> DeclaredIssue(sv, byId, m, i)
    ensures forall i :: i in r ==> i.pluginId == m.id
  {
    DependencyFindings(sv, byId, m, m.dependencies) + ConflictFindings(sv, byId, m, m.conflicts)
  }

  function AllDeclared(sv: Semver, byId: PluginIndex, ids: seq<PluginId>): (r: seq<Issue>)
    requires forall id :: id in ids ==> id in byId
    ensures forall i :: i in r <==> exists id :: id in ids && i in DeclaredFindings(sv, byId, byId[id])
  {
    if ids == [] then [] else
      assert ids == ids[..|ids| - 1] + [ids[|ids| - 1]];
      AllDeclared(sv, byId, ids[..|ids| - 1]) + DeclaredFindings(sv, byId, byId[ids[|ids| - 1]])
  }

  lemma DeclaredAreReported(sv: Semver, ms: seq<Manifest>)
    ensures forall i :: i in AllDeclared(sv, Index(ms), IndexIds(ms))
              <==> i.pluginId in Index(ms) && DeclaredIssue(sv, Index(ms), Index(ms)[i.pluginId], i)
  {
  }

  method RunWalk(ms: seq<Manifest>, byId: PluginIndex) returns (order: seq<PluginId>, cyclic: set<PluginId>)
    requires byId == Index(ms)
    ensures order == WalkOf(ms).order && cyclic == WalkOf(ms).cyclic
  {
    var g := GraphOf(byId);
    var roots := RootsOf(ms);
    var walk: DependencyWalk := new DependencyWalk(g);
    var n := 0;
    assert Members<PluginId>([]) == {};
    while n < |roots|
      invariant 0 <= n <= |roots| && walk.graph == g && walk.visiting == {}
      invariant VisitAll(g, roots, [], Walk({}, {}, [], {})) == VisitAll(g, roots[n..], [], walk.State())
    {
      assert roots[n] in roots && roots[n..][1..] == roots[n + 1..];
      walk.VisitNode(roots[n], []);
      n := n + 1;
    }
    order, cyclic := walk.activationOrder, walk.cyclic;
  }

  // ---------------------------------------------------------------- the host

  function IssueIf(condition: bool, i: Issue): seq<Issue>
  {
    if condition then [i] else []
  }

  function Unlisted(listed: set<string>, names: seq<string>, id: PluginId, code: IssueCode, field: string): (r: seq<Issue>)
    ensures forall i :: i in r ==> i.pluginId == id
    ensures r == [] <==> forall name :: name in names ==> name in listed
  {
    if names == [] then [] else
      assert names == [names[0]] + names[1..];
      IssueIf(names[0] !in listed, Issue(code, id, field, None, Some(names[0]))) + Unlisted(listed, names[1..], id, code, field)
  }

  predicate IsUnlisted(listed: set<string>, names: seq<string>, id: PluginId, code: IssueCode, field: string, i: Issue)
  {
    && i.code == code && i.pluginId == id && i.field == field && i.related == None
    && i.detail.Some? && i.detail.value in names && i.detail.value !in listed
  }

  lemma {:induction false} UnlistedAreThese(listed: set<string>, names: seq<string>, id: PluginId, code: IssueCode, field: string, i: Issue)
    ensures i in Unlisted(listed, names, id, code, field) <==> IsUnlisted(listed, names, id, code, field, i)
  {
    if names != [] {
      UnlistedAreThese(listed, names[1..], id, code, field, i);
      assert names == [names[0]] + names[1..];
    }
  }

  predicate ExactRuntimeMatches(plugin: SharedRuntime, host: SharedRuntime)
  {
    && plugin.react == host.react
    && plugin.reactDom == host.reactDom
    && plugin.router == host.router
    && plugin.carbonReact == host.carbonReact
  }

  function SdkCandidates(m: Manifest, host: Host): set<string>
  {
    if m.frontend.Some? && m.frontend.value.pluginSdk != "" then {m.frontend.value.pluginSdk} else host.supportedSdkVersions
  }

  /** Some version of the SDK that counts for this plugin meets its range: its frontend's own, or any of the host's. */
  predicate SdkFits(sv: Semver, host: Host, m: Manifest)
  {
    exists version :: version in SdkCandidates(m, host) && sv.satisfies(version, m.sdkRange)
  }

  function RangeFindings(sv: Semver, host: Host, m: Manifest): (r: seq<Issue>)
    ensures forall i :: i in r ==> i.pluginId == m.id
  {
    var hostMatch := sv.RangeMatches(host.hostVersion, m.hostRange);
    IssueIf(hostMatch == None, Issue(InvalidVersionRange, m.id, "compatibility.host", None, None))
    + IssueIf(hostMatch == Some(false), Issue(IncompatibleHost, m.id, "compatibility.host", None, None))
    + IssueIf(!sv.validRange(m.sdkRange), Issue(InvalidVersionRange, m.id, "compatibility.sdk", None, None))
    + IssueIf(sv.validRange(m.sdkRange) && !SdkFits(sv, host, m), Issue(IncompatibleSdk, m.id, "compatibility.sdk", None, None))
  }

  function DeploymentFindings(host: Host, m: Manifest): (r: seq<Issue>)
    ensures forall i :: i in r ==> i.pluginId == m.id
  {
    IssueIf(m.frontend.Some? && m.frontend.value.pluginSdk !in host.supportedSdkVersions,
         Issue(IncompatibleSharedRuntime, m.id, "deployment.frontend.shared.pluginSdk", None, None))
    + IssueIf(m.frontend.Some? && m.frontendProtocol != Some(host.frontendProtocol),
           Issue(UnsupportedFrontendProtocol, m.id, "compatibility.frontendProtocol", None, None))
    + IssueIf(m.hasBackend && m.backendProtocol != Some(host.backendProtocol),
           Issue(UnsupportedBackendProtocol, m.id, "compatibility.backendProtocol", None, None))
    + IssueIf(m.frontend.Some? && !ExactRuntimeMatches(m.frontend.value, host.sharedFrontend),
           Issue(IncompatibleSharedRuntime, m.id, "deployment.frontend.shared", None, None))
  }

  function PolicyFindings(host: Host, m: Manifest): (r: seq<Issue>)
    ensures forall i :: i in r ==> i.pluginId == m.id
  {
    IssueIf(m.publisher !in host.trustedPublishers, Issue(UntrustedPublisher, m.id, "metadata.publisher", None, None))
    + Unlisted(host.slots, m.requiredSlots, m.id, MissingSlot, "compatibility.requiredSlots")
    + Unlisted(host.permissions, m.requiredPermissions, m.id, UnknownPermission, "permissions.required")
    + IssueIf(m.egressPolicy != "none" && m.egressPolicy !in host.egressPolicies,
           Issue(UnapprovedEgressPolicy, m.id, "network.egressPolicy", None, None))
  }

  /** The issues of one manifest against the host alone. */
  function HostFindings(sv: Semver, host: Host, m: Manifest): (r: seq<Issue>)
    ensures forall i :: i in r ==> i.pluginId == m.id
  {
    PolicyFindings(host, m) + RangeFindings(sv, host, m) + DeploymentFindings(host, m)
  }

  // What the host asks of a manifest, issue by issue.

  predicate PolicyIssue(host: Host, m: Manifest, i: Issue)
  {
    match i.code
    case UntrustedPublisher => i.field == "metadata.publisher" && i.detail == None && m.publisher !in host.trustedPublishers
    case MissingSlot =>
      i.field == "compatibility.requiredSlots" && i.detail.Some? && i.detail.value in m.requiredSlots && i.detail.value !in host.slots
    case UnknownPermission =>
      i.field == "permissions.required" && i.detail.Some? && i.detail.value in m.requiredPermissions && i.detail.value !in host.permissions
    case UnapprovedEgressPolicy =>
      i.field == "network.egressPolicy" && i.detail == None && m.egressPolicy != "none" && m.egressPolicy !in host.egressPolicies
    case _ => false
  }

  predicate RangeIssue(sv: Semver, host: Host, m: Manifest, i: Issue)
  {
    && i.detail == None
    && match i.code
       case InvalidVersionRange =>
         || (i.field == "compatibility.host" && !sv.validRange(m.hostRange))
         || (i.field == "compatibility.sdk" && !sv.validRange(m.sdkRange))
       case IncompatibleHost =>
         i.field == "compatibility.host" && sv.validRange(m.hostRange) && !sv.satisfies(host.hostVersion, m.hostRange)
       case IncompatibleSdk => i.field == "compatibility.sdk" && sv.validRange(m.sdkRange) && !SdkFits(sv, host, m)
       case _ => false
  }

  predicate DeploymentIssue(host: Host, m: Manifest, i: Issue)
  {
    && i.detail == None
    && match i.code
       case IncompatibleSharedRuntime =>
         && m.frontend.Some?
         && ((i.field == "deployment.frontend.shared.pluginSdk" && m.frontend.value.pluginSdk !in host.supportedSdkVersions)
             || (i.field == "deployment.frontend.shared" && !ExactRuntimeMatches(m.frontend.value, host.sharedFrontend)))
       case UnsupportedFrontendProtocol =>
         i.field == "compatibility.frontendProtocol" && m.frontend.Some? && m.frontendProtocol != Some(host.frontendProtocol)
       case UnsupportedBackendProtocol =>
         i.field == "compatibility.backendProtocol" && m.hasBackend && m.backendProtocol != Some(host.backendProtocol)
       case _ => false
  }

  predicate HostIssue(sv: Semver, host: Host, m: Manifest, i: Issue)
  {
    && i.pluginId == m.id && i.related == None
    && (PolicyIssue(host, m, i) || RangeIssue(sv, host, m, i) || DeploymentIssue(host, m, i))
  }

  lemma PolicyFindingsAreThese(host: Host, m: Manifest, i: Issue)
    ensures i in PolicyFindings(host, m) <==> i.pluginId == m.id && i.related == None && PolicyIssue(host, m, i)
  {
    hide Unlisted;
    UnlistedAreThese(host.slots, m.requiredSlots, m.id, MissingSlot, "compatibility.requiredSlots", i);
    UnlistedAreThese(host.permissions, m.requiredPermissions, m.id, UnknownPermission, "permissions.required", i);
    PolicyFindingsSplit(host, m, i);
  }

  lemma PolicyFindingsSplit(host: Host, m: Manifest, i: Issue)
    ensures i in PolicyFindings(host, m) <==>
              || (m.publisher !in host.trustedPublishers && i == Issue(UntrustedPublisher, m.id, "metadata.publisher", None, None))
              || i in Unlisted(host.slots, m.requiredSlots, m.id, MissingSlot, "compatibility.requiredSlots")
              || i in Unlisted(host.permissions, m.requiredPermissions, m.id, UnknownPermission, "permissions.required")
              || (m.egressPolicy != "none" && m.egressPolicy !in host.egressPolicies
                  && i == Issue(UnapprovedEgressPolicy, m.id, "network.egressPolicy", None, None))
  {
    hide Unlisted;
  }

  lemma RangeFindingsAreThese(sv: Semver, host: Host, m: Manifest, i: Issue)
    ensures i in RangeFindings(sv, host, m) <==> i.pluginId == m.id && i.related == None && RangeIssue(sv, host, m, i)
  {
    hide RangeFindings, SdkFits;
    RangeFindingsSplit(sv, host, m, i);
  }

  lemma RangeFindingsSplit(sv: Semver, host: Host, m: Manifest, i: Issue)
    ensures i in RangeFindings(sv, host, m) <==>
              || (!sv.validRange(m.hostRange) && i == Issue(InvalidVersionRange, m.id, "compatibility.host", None, None))
              || (sv.validRange(m.hostRange) && !sv.satisfies(host.hostVersion, m.hostRange)
                  && i == Issue(IncompatibleHost, m.id, "compatibility.host", None, None))
              || (!sv.validRange(m.sdkRange) && i == Issue(InvalidVersionRange, m.id, "compatibility.sdk", None, None))
              || (sv.validRange(m.sdkRange) && !SdkFits(sv, host, m)
                  && i == Issue(IncompatibleSdk, m.id, "compatibility.sdk", None, None))
  {
    hide SdkFits;
  }

  lemma DeploymentFindingsAreThese(host: Host, m: Manifest, i: Issue)
    ensures i in DeploymentFindings(host, m) <==> i.pluginId == m.id && i.related == None && DeploymentIssue(host, m, i)
  {
    hide DeploymentFindings, ExactRuntimeMatches;
    DeploymentFindingsSplit(host, m, i);
  }

  lemma DeploymentFindingsSplit(host: Host, m: Manifest, i: Issue)
    ensures i in DeploymentFindings(host, m) <==>
              || (m.frontend.Some? && m.frontend.value.pluginSdk !in host.supportedSdkVersions
                  && i == Issue(IncompatibleSharedRuntime, m.id, "deployment.frontend.shared.pluginSdk", None, None))
              || (m.frontend.Some? && m.frontendProtocol != Some(host.frontendProtocol)
                  && i == Issue(UnsupportedFrontendProtocol, m.id, "compatibility.frontendProtocol", None, None))
              || (m.hasBackend && m.backendProtocol != Some(host.backendProtocol)
                  && i == Issue(UnsupportedBackendProtocol, m.id, "compatibility.backendProtocol", None, None))
              || (m.frontend.Some? && !ExactRuntimeMatches(m.frontend.value, host.sharedFrontend)
                  && i == Issue(IncompatibleSharedRuntime, m.id, "deployment.frontend.shared", None, None))
  {
    hide ExactRuntimeMatches;
  }

  /** The host half of a resolution: which issues a manifest has against a host. */
  lemma HostFindingsAreThese(sv: Semver, host: Host, m: Manifest, i: Issue)
    ensures i in HostFindings(sv, host, m) <==> HostIssue(sv, host, m, i)
  {
    hide PolicyFindings, RangeFindings, DeploymentFindings, PolicyIssue, RangeIssue, DeploymentIssue;
    PolicyFindingsAreThese(host, m, i);
    RangeFindingsAreThese(sv, host, m, i);
    DeploymentFindingsAreThese(host, m, i);
  }

  /** A manifest runs on a host without issue. */
  predicate RunsOn(sv: Semver, host: Host, m: Manifest)
  {
    && m.publisher in host.trustedPublishers
    && sv.validRange(m.hostRange) && sv.satisfies(host.hostVersion, m.hostRange)
    && sv.validRange(m.sdkRange) && SdkFits(sv, host, m)
    && (m.frontend.Some? ==>
          && m.frontend.value.pluginSdk in host.supportedSdkVersions
          && m.frontendProtocol == Some(host.frontendProtocol)
          && ExactRuntimeMatches(m.frontend.value, host.sharedFrontend))
    && (m.hasBackend ==> m.backendProtocol == Some(host.backendProtocol))
    && (forall slot :: slot in m.requiredSlots ==> slot in host.slots)
    && (forall permission :: permission in m.requiredPermissions ==> permission in host.permissions)
    && (m.egressPolicy == "none" || m.egressPolicy in host.egressPolicies)
  }

  lemma NoPolicyFindings(host: Host, m: Manifest)
    ensures PolicyFindings(host, m) == [] <==>
              && m.publisher in host.trustedPublishers
              && (forall slot :: slot in m.requiredSlots ==> slot in host.slots)
              && (forall permission :: permission in m.requiredPermissions ==> permission in host.permissions)
              && (m.egressPolicy == "none" || m.egressPolicy in host.egressPolicies)
  {
    hide Unlisted;
  }

  lemma NoRangeFindings(sv: Semver, host: Host, m: Manifest)
    ensures RangeFindings(sv, host, m) == [] <==>
              && sv.validRange(m.hostRange) && sv.satisfies(host.hostVersion, m.hostRange)
              && sv.validRange(m.sdkRange) && SdkFits(sv, host, m)
  {
    hide SdkFits;
  }

  lemma NoDeploymentFindings(host: Host, m: Manifest)
    ensures DeploymentFindings(host, m) == [] <==>
              && (m.frontend.Some? ==>
                    && m.frontend.value.pluginSdk in host.supportedSdkVersions
                    && m.frontendProtocol == Some(host.frontendProtocol)
                    && ExactRuntimeMatches(m.frontend.value, host.sharedFrontend))
              && (m.hasBackend ==> m.backendProtocol == Some(host.backendProtocol))
  {
    hide ExactRuntimeMatches;
  }

  lemma NoHostFindingsMeansRunsOn(sv: Semver, host: Host, m: Manifest)
    ensures HostFindings(sv, host, m) == [] <==> RunsOn(sv, host, m)
  {
    hide PolicyFindings, RangeFindings, DeploymentFindings, SdkFits, ExactRuntimeMatches;
    NoPolicyFindings(host, m);
    NoRangeFindings(sv, host, m);
    NoDeploymentFindings(host, m);
  }

  function AllHost(sv: Semver, host: Host, byId: PluginIndex, ids: seq<PluginId>): (r: seq<Issue>)
    requires forall id :: id in ids ==> id in byId
  {
    if ids == [] then [] else
      AllHost(sv, host, byId, ids[..|ids| - 1]) + HostFindings(sv, host, byId[ids[|ids| - 1]])
  }

  lemma {:induction false} AllHostAreThese(sv: Semver, host: Host, byId: PluginIndex, ids: seq<PluginId>, i: Issue)
    requires forall id :: id in ids ==> id in byId
    ensures i in AllHost(sv, host, byId, ids) <==> exists id :: id in ids && i in HostFindings(sv, host, byId[id])
  {
    hide HostFindings;
    if ids != [] {
      AllHostAreThese(sv, host, byId, ids[..|ids| - 1], i);
      assert ids == ids[..|ids| - 1] + [ids[|ids| - 1]];
    }
  }

  lemma HostAreReported(sv: Semver, host: Host, ms: seq<Manifest>)
    ensures forall i :: i in AllHost(sv, host, Index(ms), IndexIds(ms))
              <==> i.pluginId in Index(ms) && i in HostFindings(sv, host, Index(ms)[i.pluginId])
  {
    hide HostFindings, AllHost, Index, IndexIds;
    forall i ensures i in AllHost(sv, host, Index(ms), IndexIds(ms))
              <==> i.pluginId in Index(ms) && i in HostFindings(sv, host, Index(ms)[i.pluginId])
    {
      AllHostAreThese(sv, host, Index(ms), IndexIds(ms), i);
    }
  }

  ghost predicate SetIssue(sv: Semver, host: Host, ms: seq<Manifest>, i: Issue)
  {
    RelationshipIssue(sv, ms, i) || (i.pluginId in Index(ms) && i in HostFindings(sv, host, Index(ms)[i.pluginId]))
  }

  /** The loop over `byId.values()` of the host checks. */
  method CheckHost(sv: Semver, host: Host, byId: PluginIndex, ids: seq<PluginId>) returns (issues: seq<Issue>)
    requires forall id :: id in ids ==> id in byId
    ensures issues == AllHost(sv, host, byId, ids)
  {
    hide HostFindings;
    issues := [];
    var n := 0;
    while n < |ids|
      invariant 0 <= n <= |ids| && issues == AllHost(sv, host, byId, ids[..n])
    {
      assert ids[..n + 1][..n] == ids[..n];
      issues := issues + HostFindings(sv, host, byId[ids[n]]);
      n := n + 1;
    }
    assert ids[..n] == ids;
  }

  /** All or nothing: one issue anywhere refuses the whole set. */
  method ResolvePluginSet(sv: Semver, ms: seq<Manifest>, host: Host) returns (r: Resolution)
    ensures forall i :: i in r.issues <==> SetIssue(sv, host, ms, i)
    ensures r.compatible <==> r.issues == []
    ensures r.activationOrder == if r.compatible then WalkOf(ms).order else []
  {
    var relationships := ResolveRelationships(sv, ms);
    var byId, ids, _ := IndexManifests(ms);
    var fromHost := CheckHost(sv, host, byId, ids);
    var issues := relationships.issues + fromHost;
    HostAreReported(sv, host, ms);
    forall i ensures i in issues <==> SetIssue(sv, host, ms, i) {
      assert i in issues <==> i in relationships.issues || i in fromHost;
    }
    r := Resolution(issues == [], if issues == [] then relationships.activationOrder else [], issues);
  }
}
