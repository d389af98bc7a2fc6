/**
 Which collections of plugins are consistent, and how large the subset is that round after round of
 rejection leaves (packages/plugin-runtime/src/resolver.ts:441-493).

 The source promises "the largest dependency-consistent subset". The rejection loop keeps that promise
 exactly when no plugin rejected in the first round could have been kept together with its required
 dependencies. Conflicts, optional dependencies and duplicate ids can each break it.
 */
module ConsistentSubsets {
  import opened Results
  import opened Manifests
  import opened DependencyGraph
  import opened Resolver

  /**
   Whether a plugin may run on the host at all, whether a version meets a dependency range, and whether
   it triggers a conflict range. A range that does not parse meets nothing and triggers everything.
   */
  datatype Rules = Rules(runsOnHost: Manifest -> bool, admits: (string, string) -> bool, triggers: (string, string) -> bool)

  // ---------------------------------------------------------------- consistency

  predicate Unmet(R: Rules, byId: PluginIndex, d: Dependency)
  {
    if d.id in byId then !R.admits(byId[d.id].version, d.version) else !d.optional
  }

  predicate Clashes(R: Rules, byId: PluginIndex, x: Conflict)
  {
    x.id in byId && R.triggers(byId[x.id].version, x.version)
  }

  /** A plugin that cannot be activated among the plugins present. */
  ghost predicate Flagged(R: Rules, byId: PluginIndex, id: PluginId)
    requires id in byId
  {
    || !R.runsOnHost(byId[id])
    || (exists d :: d in byId[id].dependencies && Unmet(R, byId, d))
    || (exists x :: x in byId[id].conflicts && Clashes(R, byId, x))
  }

  ghost predicate Viable(R: Rules, byId: PluginIndex)
  {
    && (forall id :: id in byId ==> !Flagged(R, byId, id))
    && Acyclic(GraphOf(byId))
  }

  ghost predicate UniqueIds(ms: seq<Manifest>)
  {
    forall j, k :: 0 <= j < k < |ms| ==> ms[j].id != ms[k].id
  }

  ghost predicate Compatible(R: Rules, ms: seq<Manifest>)
  {
    UniqueIds(ms) && Viable(R, Index(ms))
  }

  /** The plugins one round of resolution names in its issues. */
  ghost function RejectedIds(R: Rules, ms: seq<Manifest>): set<PluginId>
  {
    set id | id in Index(ms) && (Flagged(R, Index(ms), id) || Duplicated(ms, id) || id in WalkOf(ms).cyclic)
  }

  /** A round names nobody exactly when the plugins are compatible. */
  lemma NobodyNamedWhenCompatible(R: Rules, ms: seq<Manifest>)
    ensures RejectedIds(R, ms) == {} <==> Compatible(R, ms)
  {
    var byId := Index(ms);
    CyclesAreReported(GraphOf(byId), RootsOf(ms));
    if RejectedIds(R, ms) == {} {
      forall j, k | 0 <= j < k < |ms| ensures ms[j].id != ms[k].id {
        assert ms[k] in ms && ms[k].id !in RejectedIds(R, ms);
      }
      assert forall id :: id in byId ==> id !in RejectedIds(R, ms);
    }
  }

  // ---------------------------------------------------------------- the rejection loop

  function Drop(ms: seq<Manifest>, rejected: set<PluginId>): (r: seq<Manifest>)
    ensures |r| <= |ms| && forall m :: m in r <==> m in ms && m.id !in rejected
  {
    if ms == [] then [] else
      assert ms == ms[..|ms| - 1] + [ms[|ms| - 1]];
      Drop(ms[..|ms| - 1], rejected) + (if ms[|ms| - 1].id in rejected then [] else [ms[|ms| - 1]])
  }

  lemma {:induction false} DropShrinks(ms: seq<Manifest>, rejected: set<PluginId>)
    requires exists m :: m in ms && m.id in rejected
    ensures |Drop(ms, rejected)| < |ms|
  {
    var last := ms[|ms| - 1];
    assert ms == ms[..|ms| - 1] + [last];
    if last.id !in rejected {
      DropShrinks(ms[..|ms| - 1], rejected);
    }
  }

  /** Each failing round rejects at least one plugin that is present: the guard for none never fires. */
  lemma FailingRoundShrinks(R: Rules, ms: seq<Manifest>)
    requires !Compatible(R, ms)
    ensures RejectedIds(R, ms) != {} && |Drop(ms, RejectedIds(R, ms))| < |ms|
  {
    NobodyNamedWhenCompatible(R, ms);
    var id :| id in RejectedIds(R, ms);
    assert Index(ms)[id] in ms;
    DropShrinks(ms, RejectedIds(R, ms));
  }

  /** The plugins the rejection loop is left with. */
  ghost function Isolate(R: Rules, ms: seq<Manifest>): seq<Manifest>
    decreases |ms|
  {
    if ms == [] || Compatible(R, ms) then ms else
      FailingRoundShrinks(R, ms);
      Isolate(R, Drop(ms, RejectedIds(R, ms)))
  }

  // ---------------------------------------------------------------- soundness

  /** Whatever is left is compatible, consists of given manifests, and its order is an activation order. */
  lemma {:induction false} IsolatedIsCompatible(R: Rules, ms: seq<Manifest>)
    ensures Isolate(R, ms) != [] ==> Compatible(R, Isolate(R, ms))
    ensures forall m :: m in Isolate(R, ms) ==> m in ms
    ensures Isolate(R, ms) != [] ==> ActivationOrder(GraphOf(Index(Isolate(R, ms))), WalkOf(Isolate(R, ms)).order)
    decreases |ms|
  {
    if ms == [] {
    } else if Compatible(R, ms) {
      CyclesAreReported(GraphOf(Index(ms)), RootsOf(ms));
      OrderIsTopological(GraphOf(Index(ms)), RootsOf(ms));
    } else {
      FailingRoundShrinks(R, ms);
      IsolatedIsCompatible(R, Drop(ms, RejectedIds(R, ms)));
    }
  }

  // ---------------------------------------------------------------- sub-collections

  function Restrict(byId: PluginIndex, ids: set<PluginId>): PluginIndex
  {
    map id | id in byId && id in ids :: byId[id]
  }

  ghost predicate Within(sub: PluginIndex, byId: PluginIndex)
  {
    forall id :: id in sub ==> id in byId && byId[id] == sub[id]
  }

  lemma IndexOfAppend(ms: seq<Manifest>, m: Manifest)
    ensures Index(ms + [m]) == if m.id in Index(ms) then Index(ms) else Index(ms)[m.id := m]
  {
    assert (ms + [m])[..|ms|] == ms;
  }

  lemma WithinIsRestriction(sub: PluginIndex, byId: PluginIndex)
    requires Within(sub, byId)
    ensures sub == Restrict(byId, sub.Keys)
  {
  }

  ghost predicate IndexedRest(sub: PluginIndex, byId: PluginIndex, rejected: set<PluginId>)
  {
    sub.Keys == byId.Keys - rejected && Within(sub, byId)
  }

  lemma AppendKept(kept: seq<Manifest>, init: seq<Manifest>, last: Manifest, rejected: set<PluginId>)
    requires IndexedRest(Index(kept), Index(init), rejected) && last.id !in rejected
    ensures IndexedRest(Index(kept + [last]), Index(init + [last]), rejected)
  {
    IndexOfAppend(kept, last);
    IndexOfAppend(init, last);
  }

  lemma AppendDropped(kept: seq<Manifest>, init: seq<Manifest>, last: Manifest, rejected: set<PluginId>)
    requires IndexedRest(Index(kept), Index(init), rejected) && last.id in rejected
    ensures IndexedRest(Index(kept), Index(init + [last]), rejected)
  {
    IndexOfAppend(init, last);
  }

  lemma {:induction false} IndexOfDrop(ms: seq<Manifest>, rejected: set<PluginId>)
    ensures IndexedRest(Index(Drop(ms, rejected)), Index(ms), rejected)
  {
    if ms != [] {
      var init, last := ms[..|ms| - 1], ms[|ms| - 1];
      assert ms == init + [last];
      IndexOfDrop(init, rejected);
      if last.id !in rejected {
        AppendKept(Drop(init, rejected), init, last, rejected);
      } else {
        AppendDropped(Drop(init, rejected), init, last, rejected);
        assert Drop(ms, rejected) == Drop(init, rejected);
      }
    }
  }

  lemma {:induction false} DropKeepsUniqueIds(ms: seq<Manifest>, rejected: set<PluginId>)
    requires UniqueIds(ms)
    ensures UniqueIds(Drop(ms, rejected))
  {
    if ms != [] {
      var init, last := ms[..|ms| - 1], ms[|ms| - 1];
      var kept := Drop(init, rejected);
      DropKeepsUniqueIds(init, rejected);
      forall j | 0 <= j < |kept| ensures kept[j].id != last.id {
        assert kept[j] in kept && kept[j] in init;
        var k :| 0 <= k < |init| && init[k] == kept[j];
        assert ms[k] == init[k];
      }
    }
  }

  /** Dropping every duplicated id leaves each id once. */
  lemma {:induction false} DropOfDuplicates(ms: seq<Manifest>, rejected: set<PluginId>)
    requires forall id :: Duplicated(ms, id) ==> id in rejected
    ensures UniqueIds(Drop(ms, rejected))
  {
    hide Duplicated;
    if ms != [] {
      var n := |ms| - 1;
      assert ms[..n + 1] == ms;
      DuplicatedGrows(ms, n);
      DropOfDuplicates(ms[..n], rejected);
      LastIsDropped(ms, rejected);
    }
  }

  lemma LastIsDropped(ms: seq<Manifest>, rejected: set<PluginId>)
    requires ms != [] && UniqueIds(Drop(ms[..|ms| - 1], rejected))
    requires ms[|ms| - 1].id in Index(ms[..|ms| - 1]) ==> ms[|ms| - 1].id in rejected
    ensures UniqueIds(Drop(ms, rejected))
  {
    hide Index;
    var kept, last := Drop(ms[..|ms| - 1], rejected), ms[|ms| - 1];
    forall j | 0 <= j < |kept| && last.id !in rejected ensures kept[j].id != last.id {
      assert kept[j] in kept;
    }
  }

  lemma EdgesOf(byId: PluginIndex, a: PluginId, b: PluginId)
    ensures Edge(GraphOf(byId), a, b) <==>
            a in byId && b in byId && exists d :: d in byId[a].dependencies && d.id == b
  {
  }

  lemma EdgeOfRestriction(byId: PluginIndex, ids: set<PluginId>, a: PluginId, b: PluginId)
    requires Edge(GraphOf(Restrict(byId, ids)), a, b)
    ensures Edge(GraphOf(byId), a, b) && a in ids && b in ids && a in byId && b in byId
  {
    EdgesOf(Restrict(byId, ids), a, b);
    EdgesOf(byId, a, b);
  }

  /** A cycle among fewer plugins is a cycle among more. */
  lemma CycleOfRestriction(byId: PluginIndex, ids: set<PluginId>, p: seq<PluginId>)
    requires IsCycle(GraphOf(Restrict(byId, ids)), p)
    ensures IsCycle(GraphOf(byId), p)
    ensures forall i :: 0 <= i < |p| ==> p[i] in ids && p[i] in byId
  {
    forall i | 0 <= i < |p| - 1 ensures Edge(GraphOf(byId), p[i], p[i + 1]) {
      EdgeOfRestriction(byId, ids, p[i], p[i + 1]);
    }
    forall i | 0 <= i < |p| ensures p[i] in ids && p[i] in byId {
      if i < |p| - 1 {
        EdgeOfRestriction(byId, ids, p[i], p[i + 1]);
      } else {
        EdgeOfRestriction(byId, ids, p[0], p[1]);
      }
    }
  }

  lemma AcyclicRestriction(byId: PluginIndex, ids: set<PluginId>, fewer: set<PluginId>)
    requires fewer <= ids && Acyclic(GraphOf(Restrict(byId, ids)))
    ensures Acyclic(GraphOf(Restrict(byId, fewer)))
  {
    assert Restrict(Restrict(byId, ids), fewer) == Restrict(byId, fewer);
    forall p ensures !IsCycle(GraphOf(Restrict(byId, fewer)), p) {
      if IsCycle(GraphOf(Restrict(byId, fewer)), p) {
        CycleOfRestriction(Restrict(byId, ids), fewer, p);
      }
    }
  }

  /** A set of ids whose plugins resolve on their own. */
  ghost predicate Consistent(R: Rules, byId: PluginIndex, ids: set<PluginId>)
  {
    ids <= byId.Keys && Viable(R, Restrict(byId, ids))
  }

  lemma RequiredIsPresent(R: Rules, byId: PluginIndex, ids: set<PluginId>, a: PluginId, d: Dependency)
    requires Consistent(R, byId, ids) && a in ids && d in byId[a].dependencies && !d.optional
    ensures d.id in ids
  {
    var sub := Restrict(byId, ids);
    assert !Flagged(R, sub, a) && !Unmet(R, sub, d);
  }

  /** A plugin of a consistent set has no complaint about another plugin of it. */
  lemma NoComplaintInside(R: Rules, byId: PluginIndex, ids: set<PluginId>, a: PluginId)
    requires Consistent(R, byId, ids) && a in ids
    ensures R.runsOnHost(byId[a])
    ensures forall d :: d in byId[a].dependencies && d.id in ids ==> !Unmet(R, byId, d)
    ensures forall x :: x in byId[a].conflicts && x.id in ids ==> !Clashes(R, byId, x)
  {
    var sub := Restrict(byId, ids);
    assert !Flagged(R, sub, a);
    forall d | d in byId[a].dependencies && d.id in ids ensures !Unmet(R, byId, d) {
      assert !Unmet(R, sub, d);
    }
    forall x | x in byId[a].conflicts && x.id in ids ensures !Clashes(R, byId, x) {
      assert !Clashes(R, sub, x);
    }
  }

  // ---------------------------------------------------------------- the required closure

  ghost function RequiredGraph(byId: PluginIndex): Graph<PluginId>
  {
    map id | id in byId :: RequiredDependencies(byId, byId[id].dependencies)
  }

  ghost function RequiredDependencies(byId: PluginIndex, ds: seq<Dependency>): (r: seq<PluginId>)
    ensures forall id :: id in r <==> id in byId && exists d :: d in ds && d.id == id && !d.optional
  {
    if ds == [] then [] else
      assert ds == [ds[0]] + ds[1..];
      (if ds[0].id in byId && !ds[0].optional then [ds[0].id] else []) + RequiredDependencies(byId, ds[1..])
  }

  ghost predicate Reaches(g: Graph<PluginId>, a: PluginId, b: PluginId)
  {
    exists p :: Chain(g, p) && p != [] && p[0] == a && p[|p| - 1] == b
  }

  /** A plugin with everything it needs: what it reaches through required dependencies. */
  ghost function RequiredClosure(byId: PluginIndex, id: PluginId): set<PluginId>
  {
    set x | x in byId && Reaches(RequiredGraph(byId), id, x)
  }

  lemma ClosureGrows(byId: PluginIndex, id: PluginId, a: PluginId, b: PluginId)
    requires a in RequiredClosure(byId, id) && Edge(RequiredGraph(byId), a, b)
    ensures b in RequiredClosure(byId, id)
  {
    hide Reaches;
    ReachesFurther(RequiredGraph(byId), id, a, b);
  }

  lemma ReachesFurther(g: Graph<PluginId>, a: PluginId, b: PluginId, c: PluginId)
    requires Reaches(g, a, b) && Edge(g, b, c)
    ensures Reaches(g, a, c)
  {
    var p :| Chain(g, p) && p != [] && p[0] == a && p[|p| - 1] == b;
    ChainExtends(g, p, c);
    assert Chain(g, p + [c]) && (p + [c])[0] == a && (p + [c])[|p|] == c;
  }

  lemma {:induction false} ChainStaysInside(R: Rules, byId: PluginIndex, ids: set<PluginId>, p: seq<PluginId>)
    requires Consistent(R, byId, ids) && Chain(RequiredGraph(byId), p) && p != [] && p[0] in ids
    ensures p[|p| - 1] in ids
    decreases |p|
  {
    if |p| > 1 {
      assert Edge(RequiredGraph(byId), p[0], p[1]);
      var d :| d in byId[p[0]].dependencies && d.id == p[1] && !d.optional;
      RequiredIsPresent(R, byId, ids, p[0], d);
      forall i | 0 <= i < |p| - 2 ensures Edge(RequiredGraph(byId), p[1..][i], p[1..][i + 1]) {
        assert Edge(RequiredGraph(byId), p[i + 1], p[i + 2]);
      }
      ChainStaysInside(R, byId, ids, p[1..]);
    }
  }

  lemma ClosureInside(R: Rules, byId: PluginIndex, ids: set<PluginId>, id: PluginId)
    requires Consistent(R, byId, ids) && id in ids
    ensures RequiredClosure(byId, id) <= ids && id in RequiredClosure(byId, id)
  {
    ClosureHasItsPlugin(byId, id);
    forall x | x in RequiredClosure(byId, id) ensures x in ids {
      var p :| Chain(RequiredGraph(byId), p) && p != [] && p[0] == id && p[|p| - 1] == x;
      ChainStaysInside(R, byId, ids, p);
    }
  }

  /** Within a consistent set, the closure of a plugin finds nothing wrong with itself. */
  lemma ClosureUnflagged(R: Rules, byId: PluginIndex, ids: set<PluginId>, id: PluginId, a: PluginId)
    requires Consistent(R, byId, ids) && id in ids && a in RequiredClosure(byId, id)
    ensures a in Restrict(byId, RequiredClosure(byId, id))
    ensures !Flagged(R, Restrict(byId, RequiredClosure(byId, id)), a)
  {
    var closure := RequiredClosure(byId, id);
    var sub := Restrict(byId, closure);
    ClosureInside(R, byId, ids, id);
    NoComplaintInside(R, byId, ids, a);
    forall d | d in byId[a].dependencies ensures !Unmet(R, sub, d) {
      if !d.optional {
        RequiredIsPresent(R, byId, ids, a, d);
        assert Edge(RequiredGraph(byId), a, d.id);
        ClosureGrows(byId, id, a, d.id);
      }
      assert d.id in closure ==> !Unmet(R, byId, d);
    }
    forall x | x in byId[a].conflicts ensures !Clashes(R, sub, x) {
      assert x.id in closure ==> !Clashes(R, byId, x);
    }
  }

  /** A plugin belongs to some consistent set exactly when its required closure is consistent. */
  lemma ClosureDecides(R: Rules, byId: PluginIndex, id: PluginId)
    requires id in byId
    ensures (exists ids :: Consistent(R, byId, ids) && id in ids) <==> Consistent(R, byId, RequiredClosure(byId, id))
  {
    var closure := RequiredClosure(byId, id);
    if ids :| Consistent(R, byId, ids) && id in ids {
      ClosureInside(R, byId, ids, id);
      forall a | a in Restrict(byId, closure) ensures !Flagged(R, Restrict(byId, closure), a) {
        ClosureUnflagged(R, byId, ids, id, a);
      }
      AcyclicRestriction(byId, ids, closure);
    }
    ClosureHasItsPlugin(byId, id);
  }

  // ---------------------------------------------------------------- how large the result is

  /** The result contains every consistent subset of the given plugins. */
  ghost predicate IsLargest(R: Rules, ms: seq<Manifest>)
  {
    forall ids :: Consistent(R, Index(ms), ids) ==> ids <= Index(Isolate(R, ms)).Keys
  }

  /** The condition, checkable with one call of the resolver per plugin rejected at once. */
  ghost predicate NothingLostAtOnce(R: Rules, ms: seq<Manifest>)
  {
    forall id :: id in RejectedIds(R, ms) ==> !Consistent(R, Index(ms), RequiredClosure(Index(ms), id))
  }

  /** A later round: what remains are plugins no earlier round rejected. */
  ghost predicate LaterRound(R: Rules, ms: seq<Manifest>, rem: seq<Manifest>)
  {
    && UniqueIds(rem)
    && Within(Index(rem), Index(ms))
    && Index(rem).Keys !! RejectedIds(R, ms)
  }

  lemma NoCycleSurvivesTheFirstRound(R: Rules, ms: seq<Manifest>, rem: seq<Manifest>)
    requires LaterRound(R, ms, rem)
    ensures WalkOf(rem).cyclic == {}
  {
    CyclesAreReported(GraphOf(Index(rem)), RootsOf(rem));
    WithinIsRestriction(Index(rem), Index(ms));
    forall p ensures !IsCycle(GraphOf(Index(rem)), p) {
      if IsCycle(GraphOf(Index(rem)), p) {
        CycleOfRestriction(Index(ms), Index(rem).Keys, p);
        EveryCycleIsHit(GraphOf(Index(ms)), RootsOf(ms), p);
      }
    }
  }

  /** No later round flags a plugin of a consistent set. */
  lemma LaterRoundsFlagNoMember(R: Rules, ms: seq<Manifest>, rem: seq<Manifest>, ids: set<PluginId>, a: PluginId)
    requires LaterRound(R, ms, rem) && Consistent(R, Index(ms), ids) && ids <= Index(rem).Keys && a in ids
    ensures !Flagged(R, Index(rem), a)
  {
    hide Consistent, Index, GraphOf, WalkOf, Duplicated;
    var byId, sub := Index(ms), Index(rem);
    NoComplaintInside(R, byId, ids, a);
    assert a !in RejectedIds(R, ms);
    forall d | d in sub[a].dependencies ensures !Unmet(R, sub, d) {
      if !d.optional { RequiredIsPresent(R, byId, ids, a, d); }
      assert !Unmet(R, byId, d);
    }
    forall x | x in sub[a].conflicts ensures !Clashes(R, sub, x) {
      assert !Clashes(R, byId, x);
    }
  }

  lemma LaterRoundsGoOn(R: Rules, ms: seq<Manifest>, rem: seq<Manifest>, rejected: set<PluginId>)
    requires LaterRound(R, ms, rem)
    ensures LaterRound(R, ms, Drop(rem, rejected)) && Index(Drop(rem, rejected)).Keys == Index(rem).Keys - rejected
  {
    IndexOfDrop(rem, rejected);
    DropKeepsUniqueIds(rem, rejected);
  }

  lemma LaterRoundsRejectNoMember(R: Rules, ms: seq<Manifest>, rem: seq<Manifest>, ids: set<PluginId>)
    requires LaterRound(R, ms, rem) && Consistent(R, Index(ms), ids) && ids <= Index(rem).Keys
    ensures ids !! RejectedIds(R, rem)
  {
    hide Consistent, Flagged;
    NoCycleSurvivesTheFirstRound(R, ms, rem);
    forall a | a in ids ensures a !in RejectedIds(R, rem) {
      LaterRoundsFlagNoMember(R, ms, rem, ids, a);
    }
  }

  lemma {:induction false} LaterRoundsKeep(R: Rules, ms: seq<Manifest>, rem: seq<Manifest>, ids: set<PluginId>)
    requires LaterRound(R, ms, rem) && Consistent(R, Index(ms), ids) && ids <= Index(rem).Keys
    ensures ids <= Index(Isolate(R, rem)).Keys
    decreases |rem|
  {
    if rem != [] && !Compatible(R, rem) {
      var rejected := RejectedIds(R, rem);
      LaterRoundsRejectNoMember(R, ms, rem, ids);
      FailingRoundShrinks(R, rem);
      LaterRoundsGoOn(R, ms, rem, rejected);
      LaterRoundsKeep(R, ms, Drop(rem, rejected), ids);
    }
  }

  lemma FirstRoundIsALaterRound(R: Rules, ms: seq<Manifest>)
    ensures LaterRound(R, ms, Drop(ms, RejectedIds(R, ms)))
    ensures Index(Drop(ms, RejectedIds(R, ms))).Keys == Index(ms).Keys - RejectedIds(R, ms)
  {
    IndexOfDrop(ms, RejectedIds(R, ms));
    DuplicatedAreRejected(R, ms);
    DropOfDuplicates(ms, RejectedIds(R, ms));
  }

  lemma DuplicatedAreRejected(R: Rules, ms: seq<Manifest>)
    ensures forall id :: Duplicated(ms, id) ==> id in RejectedIds(R, ms)
  {
    forall id | Duplicated(ms, id) ensures id in RejectedIds(R, ms) {
      var j, k :| 0 <= j < k < |ms| && ms[j].id == id && ms[k].id == id;
      assert ms[j] in ms;
    }
  }

  /** A consistent set that loses nobody in the first round loses nobody. */
  lemma KeepsWhatTheFirstRoundKeeps(R: Rules, ms: seq<Manifest>, ids: set<PluginId>)
    requires Consistent(R, Index(ms), ids) && ids !! RejectedIds(R, ms)
    ensures ids <= Index(Isolate(R, ms)).Keys
  {
    if ms != [] && !Compatible(R, ms) {
      FirstRoundIsALaterRound(R, ms);
      FailingRoundShrinks(R, ms);
      LaterRoundsKeep(R, ms, Drop(ms, RejectedIds(R, ms)), ids);
    }
  }

  lemma KeepsAllWhenNothingLost(R: Rules, ms: seq<Manifest>, ids: set<PluginId>)
    requires NothingLostAtOnce(R, ms) && Consistent(R, Index(ms), ids)
    ensures ids <= Index(Isolate(R, ms)).Keys
  {
    forall a | a in ids ensures a !in RejectedIds(R, ms) {
      ClosureDecides(R, Index(ms), a);
    }
    KeepsWhatTheFirstRoundKeeps(R, ms, ids);
  }

  lemma {:induction false} IsolatedKeysShrink(R: Rules, ms: seq<Manifest>)
    ensures Index(Isolate(R, ms)).Keys <= Index(ms).Keys
    decreases |ms|
  {
    if ms != [] && !Compatible(R, ms) {
      FailingRoundShrinks(R, ms);
      IndexOfDrop(ms, RejectedIds(R, ms));
      IsolatedKeysShrink(R, Drop(ms, RejectedIds(R, ms)));
    }
  }

  lemma RejectedIsLost(R: Rules, ms: seq<Manifest>, id: PluginId)
    requires id in RejectedIds(R, ms)
    ensures id !in Index(Isolate(R, ms))
  {
    NobodyNamedWhenCompatible(R, ms);
    FailingRoundShrinks(R, ms);
    IndexOfDrop(ms, RejectedIds(R, ms));
    IsolatedKeysShrink(R, Drop(ms, RejectedIds(R, ms)));
  }

  /**
   For every list of manifests: the isolated result is the largest consistent subset if and only if no
   plugin rejected in the first round has a required closure that resolves on its own.
   */
  lemma LargestExactlyWhenNothingLostAtOnce(R: Rules, ms: seq<Manifest>)
    ensures IsLargest(R, ms) <==> NothingLostAtOnce(R, ms)
  {
    var byId := Index(ms);
    if NothingLostAtOnce(R, ms) {
      forall ids | Consistent(R, byId, ids) ensures ids <= Index(Isolate(R, ms)).Keys {
        KeepsAllWhenNothingLost(R, ms, ids);
      }
    } else {
      var id :| id in RejectedIds(R, ms) && Consistent(R, byId, RequiredClosure(byId, id));
      RejectedIsLost(R, ms, id);
      ClosureHasItsPlugin(byId, id);
    }
  }

  // ---------------------------------------------------------------- largest among the sub-lists

  /** Some of the given manifests, in any order. */
  ghost predicate IsSubList(sub: seq<Manifest>, ms: seq<Manifest>)
  {
    forall m :: m in sub ==> m in ms
  }

  /** One of the given manifests for every id; with unique ids there is only one such choice. */
  ghost predicate IsSelection(pick: PluginIndex, ms: seq<Manifest>)
  {
    pick.Keys == Index(ms).Keys && forall id :: id in pick ==> pick[id].id == id && pick[id] in ms
  }

  /** The condition with duplicates: whichever manifest stands for an id, no rejected plugin could be kept. */
  ghost predicate NoSelectionLoses(R: Rules, ms: seq<Manifest>)
  {
    forall pick :: IsSelection(pick, ms) ==> forall id :: id in RejectedIds(R, ms) ==> !Consistent(R, pick, RequiredClosure(pick, id))
  }

  ghost predicate ContainsEverySubList(R: Rules, ms: seq<Manifest>)
  {
    forall sub :: IsSubList(sub, ms) && Compatible(R, sub) ==> Index(sub).Keys <= Index(Isolate(R, ms)).Keys
  }

  lemma UniqueIdsLeaveOneSelection(R: Rules, ms: seq<Manifest>)
    requires UniqueIds(ms)
    ensures NoSelectionLoses(R, ms) <==> NothingLostAtOnce(R, ms)
  {
    hide RejectedIds, Consistent, RequiredClosure, Index, UniqueIds, IsSelection;
    IndexIsASelection(ms);
    forall pick | IsSelection(pick, ms) ensures pick == Index(ms) {
      OnlySelection(ms, pick);
    }
  }

  lemma IndexIsASelection(ms: seq<Manifest>)
    ensures IsSelection(Index(ms), ms)
  {
    hide Index;
  }

  lemma OnlySelection(ms: seq<Manifest>, pick: PluginIndex)
    requires UniqueIds(ms) && IsSelection(pick, ms)
    ensures pick == Index(ms)
  {
    hide Index;
    forall id | id in pick ensures pick[id] == Index(ms)[id] {
      SameManifest(ms, pick[id], Index(ms)[id]);
    }
  }

  lemma SameManifest(ms: seq<Manifest>, a: Manifest, b: Manifest)
    requires a in ms && b in ms && a.id == b.id && !Duplicated(ms, a.id)
    ensures a == b
  {
    var j :| 0 <= j < |ms| && ms[j] == a;
    var k :| 0 <= k < |ms| && ms[k] == b;
    if j < k {
      assert ms[j].id == a.id && ms[k].id == a.id;
    } else if k < j {
      assert ms[k].id == a.id && ms[j].id == a.id;
    }
  }

  /** The list holds the plugins of the index, each once. */
  ghost predicate Lists(ms: seq<Manifest>, byId: PluginIndex)
  {
    UniqueIds(ms) && Index(ms) == byId && forall m :: m in ms ==> m.id in byId && byId[m.id] == m
  }

  lemma {:induction false} Listed(byId: PluginIndex) returns (ms: seq<Manifest>)
    requires forall id :: id in byId ==> byId[id].id == id
    ensures Lists(ms, byId)
    decreases |byId|
  {
    hide Lists;
    if byId == map[] {
      ms := [];
      NothingIsListed();
    } else {
      var id :| id in byId;
      assert (byId - {id}).Keys == byId.Keys - {id};
      var rest := Listed(byId - {id});
      ListOneMore(rest, byId, id);
      ms := rest + [byId[id]];
    }
  }

  lemma NothingIsListed()
    ensures Lists([], map[])
  {
  }

  lemma ListOneMore(rest: seq<Manifest>, byId: PluginIndex, id: PluginId)
    requires id in byId && byId[id].id == id && Lists(rest, byId - {id})
    ensures Lists(rest + [byId[id]], byId)
  {
    hide Index;
    IndexOfAppend(rest, byId[id]);
    forall j | 0 <= j < |rest| ensures rest[j].id != id {
      assert rest[j] in rest;
    }
  }

  /** The manifests of a sub-list, completed to a choice for every id. */
  function Completed(sub: PluginIndex, byId: PluginIndex): PluginIndex
  {
    map id | id in byId :: if id in sub then sub[id] else byId[id]
  }

  lemma SubListIsConsistent(R: Rules, ms: seq<Manifest>, sub: seq<Manifest>)
    requires IsSubList(sub, ms) && Compatible(R, sub)
    ensures IsSelection(Completed(Index(sub), Index(ms)), ms)
    ensures Consistent(R, Completed(Index(sub), Index(ms)), Index(sub).Keys)
  {
    hide Viable, Index;
    var pick := Completed(Index(sub), Index(ms));
    assert forall id :: id in Index(sub) ==> Index(sub)[id] in ms && id in Index(ms);
    assert Restrict(pick, Index(sub).Keys) == Index(sub);
  }

  lemma SubListIsKept(R: Rules, ms: seq<Manifest>, sub: seq<Manifest>)
    requires IsSubList(sub, ms) && Compatible(R, sub) && NoSelectionLoses(R, ms)
    ensures Index(sub).Keys <= Index(Isolate(R, ms)).Keys
  {
    hide Compatible, Consistent, RequiredClosure, RejectedIds;
    var ids, pick := Index(sub).Keys, Completed(Index(sub), Index(ms));
    SubListIsConsistent(R, ms, sub);
    forall a | a in ids ensures a !in RejectedIds(R, ms) {
      ClosureDecides(R, pick, a);
    }
    DuplicatedAreRejected(R, ms);
    forall id | id in ids ensures Index(sub)[id] == Index(ms)[id] {
      SameManifest(ms, Index(sub)[id], Index(ms)[id]);
    }
    SameRestriction(R, pick, Index(ms), ids);
    KeepsWhatTheFirstRoundKeeps(R, ms, ids);
  }

  lemma SameRestriction(R: Rules, a: PluginIndex, b: PluginIndex, ids: set<PluginId>)
    requires Consistent(R, a, ids) && ids <= b.Keys && forall id :: id in ids ==> a[id] == b[id]
    ensures Consistent(R, b, ids)
  {
    hide Viable;
    assert Restrict(a, ids) == Restrict(b, ids);
  }

  lemma LosingSelectionIsASubList(R: Rules, ms: seq<Manifest>, pick: PluginIndex, id: PluginId)
    requires IsSelection(pick, ms) && id in RejectedIds(R, ms) && Consistent(R, pick, RequiredClosure(pick, id))
    ensures !ContainsEverySubList(R, ms)
  {
    hide Viable;
    var kept := Restrict(pick, RequiredClosure(pick, id));
    var sub := Listed(kept);
    ClosureHasItsPlugin(pick, id);
    RejectedIsLost(R, ms, id);
    assert IsSubList(sub, ms) && Compatible(R, sub) && id in Index(sub);
  }

  /**
   Over the sub-lists of any input: the result contains every compatible one if and only if no choice of
   manifests lets a plugin rejected in the first round be kept with its required dependencies.
   */
  lemma LargestOfAllSubLists(R: Rules, ms: seq<Manifest>)
    ensures ContainsEverySubList(R, ms) <==> NoSelectionLoses(R, ms)
  {
    hide Compatible, Consistent, RequiredClosure, RejectedIds, IsSelection;
    if NoSelectionLoses(R, ms) {
      forall sub | IsSubList(sub, ms) && Compatible(R, sub) ensures Index(sub).Keys <= Index(Isolate(R, ms)).Keys {
        SubListIsKept(R, ms, sub);
      }
    } else {
      var pick, id :| IsSelection(pick, ms) && id in RejectedIds(R, ms) && Consistent(R, pick, RequiredClosure(pick, id));
      LosingSelectionIsASubList(R, ms, pick, id);
    }
  }

  // ---------------------------------------------------------------- when nothing can be lost

  ghost predicate OnlyRequired(ms: seq<Manifest>)
  {
    forall m :: m in ms ==> m.conflicts == [] && forall d :: d in m.dependencies ==> !d.optional
  }

  lemma {:induction false} WholeChainStaysInside(R: Rules, byId: PluginIndex, ids: set<PluginId>, p: seq<PluginId>, k: nat)
    requires Consistent(R, byId, ids) && Chain(GraphOf(byId), p) && k < |p| && p[k] in ids
    requires forall id :: id in byId ==> forall d :: d in byId[id].dependencies ==> !d.optional
    ensures forall i :: k <= i < |p| ==> p[i] in ids
    decreases |p| - k
  {
    if k + 1 < |p| {
      assert Edge(GraphOf(byId), p[k], p[k + 1]);
      EdgesOf(byId, p[k], p[k + 1]);
      var d :| d in byId[p[k]].dependencies && d.id == p[k + 1];
      RequiredIsPresent(R, byId, ids, p[k], d);
      WholeChainStaysInside(R, byId, ids, p, k + 1);
    }
  }

  /** Where every dependency is required, a consistent set contains no plugin that lies on a cycle. */
  lemma NoMemberOnACycle(R: Rules, byId: PluginIndex, ids: set<PluginId>, a: PluginId)
    requires Consistent(R, byId, ids) && a in ids
    requires forall id :: id in byId ==> forall d :: d in byId[id].dependencies ==> !d.optional
    ensures !OnCycle(GraphOf(byId), a)
  {
    if OnCycle(GraphOf(byId), a) {
      var p :| IsCycle(GraphOf(byId), p) && a in p;
      var k :| 0 <= k < |p| && p[k] == a;
      WholeChainStaysInside(R, byId, ids, p, k);
      WholeChainStaysInside(R, byId, ids, p, 0);
      var sub := Restrict(byId, ids);
      forall i | 0 <= i < |p| - 1 ensures Edge(GraphOf(sub), p[i], p[i + 1]) {
        assert Edge(GraphOf(byId), p[i], p[i + 1]);
        EdgesOf(byId, p[i], p[i + 1]);
        EdgesOf(sub, p[i], p[i + 1]);
      }
      assert IsCycle(GraphOf(sub), p);
    }
  }

  lemma NoMemberIsFlagged(R: Rules, byId: PluginIndex, ids: set<PluginId>, a: PluginId)
    requires Consistent(R, byId, ids) && a in ids
    requires byId[a].conflicts == [] && forall d :: d in byId[a].dependencies ==> !d.optional
    ensures !Flagged(R, byId, a)
  {
    NoComplaintInside(R, byId, ids, a);
    forall d | d in byId[a].dependencies ensures !Unmet(R, byId, d) {
      RequiredIsPresent(R, byId, ids, a, d);
    }
  }

  /** Without conflicts and optional dependencies the promise holds for every list with unique ids. */
  lemma LargestWithoutSoftRelations(R: Rules, ms: seq<Manifest>)
    requires UniqueIds(ms) && OnlyRequired(ms)
    ensures IsLargest(R, ms)
  {
    var byId := Index(ms);
    CyclesAreReported(GraphOf(byId), RootsOf(ms));
    forall id | id in RejectedIds(R, ms) ensures !Consistent(R, byId, RequiredClosure(byId, id)) {
      var closure := RequiredClosure(byId, id);
      if Consistent(R, byId, closure) {
        ClosureDecides(R, byId, id);
        ClosureHasItsPlugin(byId, id);
        NoMemberOnACycle(R, byId, closure, id);
        NoMemberIsFlagged(R, byId, closure, id);
      }
    }
    LargestExactlyWhenNothingLostAtOnce(R, ms);
  }

  lemma ClosureHasItsPlugin(byId: PluginIndex, id: PluginId)
    requires id in byId
    ensures id in RequiredClosure(byId, id)
  {
    assert Chain(RequiredGraph(byId), [id]) && [id][0] == id;
  }

  // ---------------------------------------------------------------- plugins on their own

  /** A plugin that needs nobody and has nothing against itself is consistent on its own. */
  lemma AloneIsConsistent(R: Rules, byId: PluginIndex, id: PluginId)
    requires id in byId && R.runsOnHost(byId[id])
    requires forall d :: d in byId[id].dependencies ==> d.optional && d.id != id
    requires forall x :: x in byId[id].conflicts ==> x.id != id
    ensures Consistent(R, byId, {id})
  {
    hide Acyclic, GraphOf;
    AloneHasNoCycle(Restrict(byId, {id}), id);
  }

  lemma AloneHasNoCycle(sub: PluginIndex, id: PluginId)
    requires sub.Keys == {id} && forall d :: d in sub[id].dependencies ==> d.id != id
    ensures Acyclic(GraphOf(sub))
  {
    hide GraphOf;
    forall p ensures !IsCycle(GraphOf(sub), p) {
      if IsCycle(GraphOf(sub), p) {
        EdgesOf(sub, p[0], p[1]);
      }
    }
  }
}
