/**
 Which plugins on a dependency cycle the walk reports (packages/plugin-runtime/src/resolver.ts:222-228).

 A plugin is reported exactly when, at the moment the walk enters it, it can get back to itself or to a
 plugin on the path through plugins not entered yet. Where no plugin has two dependencies that lead back
 to it, every plugin on a cycle is reported.
 */
module CycleReports {
  import opened DependencyGraph

  // ---------------------------------------------------------------- one way back

  /** A dependency through which a plugin gets back to itself. */
  ghost predicate LeadsBack<T(!new)>(g: Graph<T>, a: T, b: T)
  {
    exists p :: IsCycle(g, p) && p[0] == a && p[1] == b
  }

  /** No plugin has two different dependencies that lead back to it. */
  ghost predicate OneWayBack<T(!new)>(g: Graph<T>)
  {
    forall a, b, c :: LeadsBack(g, a, b) && LeadsBack(g, a, c) ==> b == c
  }

  /** A cycle read from another of its plugins on. */
  function Rotated<T>(p: seq<T>, k: nat): seq<T>
    requires |p| >= 2 && k < |p| - 1
  {
    p[k..|p| - 1] + p[..k + 1]
  }

  lemma RotatedIsCycle<T(!new)>(g: Graph<T>, p: seq<T>, k: nat)
    requires IsCycle(g, p) && k < |p| - 1
    ensures IsCycle(g, Rotated(p, k)) && Rotated(p, k)[0] == p[k] && Rotated(p, k)[1] == p[k + 1]
    ensures forall x :: x in Rotated(p, k) <==> x in p
  {
    var q, n := Rotated(p, k), |p| - 1;
    assert |q| == |p|;
    forall i | 0 <= i < |q| - 1 ensures Edge(g, q[i], q[i + 1]) {
      if i + k < n - 1 {
        assert Edge(g, p[i + k], p[i + k + 1]);
      } else if i + k == n - 1 {
        assert Edge(g, p[n - 1], p[n]);
      } else {
        assert Edge(g, p[i + k - n], p[i + k - n + 1]);
      }
    }
    forall x | x in p ensures x in q {
      var i :| 0 <= i < |p| && p[i] == x;
      if i <= k { assert q[n - k + i] == x; } else if i < n { assert q[i - k] == x; } else { assert q[n - k] == x; }
    }
  }

  lemma StepLeadsBack<T(!new)>(g: Graph<T>, p: seq<T>, k: nat)
    requires IsCycle(g, p) && k < |p| - 1
    ensures LeadsBack(g, p[k], p[k + 1])
  {
    RotatedIsCycle(g, p, k);
  }

  /** Two cycles through one plugin run along the same plugins. */
  lemma {:induction false} SameCycle<T(!new)>(g: Graph<T>, c: seq<T>, d: seq<T>, n: nat) returns (m: nat)
    requires OneWayBack(g) && IsCycle(g, c) && IsCycle(g, d) && c[0] == d[0] && n < |c|
    ensures m < |d| - 1 && c[n] == d[m]
  {
    if n == 0 {
      m := 0;
    } else {
      var k := SameCycle(g, c, d, n - 1);
      StepLeadsBack(g, c, n - 1);
      StepLeadsBack(g, d, k);
      m := if k + 1 < |d| - 1 then k + 1 else 0;
    }
  }

  /** With one way back for each plugin, every plugin on a cycle is reported. */
  lemma AllCycleMembersAreReported<T(!new)>(g: Graph<T>, roots: seq<T>, x: T)
    requires Roots(g, roots) && OneWayBack(g)
    ensures x in WalkFrom(g, roots).cyclic <==> OnCycle(g, x)
  {
    var reported := WalkFrom(g, roots).cyclic;
    CyclesAreReported(g, roots);
    if OnCycle(g, x) {
      var c :| IsCycle(g, c) && x in c;
      EveryCycleIsHit(g, roots, c);
      var i :| 0 <= i < |c| - 1 && c[i] in reported && c[i + 1] in reported;
      assert OnReportedCycle(g, reported, c[i]);
      var d :| IsCycle(g, d) && c[i] in d && Members(d) <= reported;
      MeetingCyclesAreReported(g, reported, c, i, d, x);
    }
  }

  lemma PositionOnCycle<T(!new)>(g: Graph<T>, d: seq<T>, y: T) returns (k: nat)
    requires IsCycle(g, d) && y in d
    ensures k < |d| - 1 && d[k] == y
  {
    k :| k < |d| && d[k] == y;
    if k == |d| - 1 { k := 0; }
  }

  lemma MeetingCyclesAreReported<T(!new)>(g: Graph<T>, reported: set<T>, c: seq<T>, i: nat, d: seq<T>, x: T)
    requires OneWayBack(g) && IsCycle(g, c) && IsCycle(g, d) && i < |c| - 1 && c[i] in d && x in c
    requires Members(d) <= reported
    ensures x in reported
  {
    var k := PositionOnCycle(g, d, c[i]);
    RotatedIsCycle(g, c, i);
    RotatedIsCycle(g, d, k);
    var n: nat :| n < |Rotated(c, i)| && Rotated(c, i)[n] == x;
    var m := SameCycle(g, Rotated(c, i), Rotated(d, k), n);
    assert x in Rotated(d, k);
    var j :| 0 <= j < |d| && d[j] == x;
    assert x in Members(d);
  }

  // ---------------------------------------------------------------- the walk between two visits

  predicate Distinct<T(==)>(path: seq<T>)
  {
    forall i, j :: 0 <= i < j < |path| ==> path[i] != path[j]
  }

  predicate Entered<T(==)>(w: Walk<T>, x: T)
  {
    x in w.visited || x in w.visiting
  }

  /** What the walk has dealt with leads only to what it has entered, and it reports nothing else. */
  ghost predicate Proper<T(!new)>(g: Graph<T>, path: seq<T>, w: Walk<T>)
  {
    && Closed(g) && w.visiting == Members(path) && w.visiting <= g.Keys && Distinct(path)
    && w.visited !! w.visiting
    && (forall x :: x in w.cyclic ==> Entered(w, x))
    && (forall x, d :: x in w.visited && Edge(g, x, d) ==> Entered(w, d))
  }

  /** From one state of the walk to a later one at the same place: reports of finished plugins are final. */
  ghost predicate Later<T(!new)>(w: Walk<T>, r: Walk<T>)
  {
    && r.visiting == w.visiting && w.visited <= r.visited && w.cyclic <= r.cyclic
    && forall x :: x in w.visited ==> (x in r.cyclic <==> x in w.cyclic)
  }

  lemma EnteringIsProper<T(!new)>(g: Graph<T>, path: seq<T>, w: Walk<T>, id: T)
    requires Proper(g, path, w) && id in g && !Entered(w, id)
    ensures Proper(g, path + [id], w.(visiting := w.visiting + {id}))
  {
    MembersOfAppend(path, id);
    assert forall i :: 0 <= i < |path| ==> path[i] in w.visiting;
  }

  lemma ClosingIsProper<T(!new)>(g: Graph<T>, path: seq<T>, w: Walk<T>, id: T)
    requires Proper(g, path, w) && id in path
    ensures Proper(g, path, CloseCycle(w, id, path)) && Later(w, CloseCycle(w, id, path))
  {
    var i := IndexOf(path, id);
    assert Members(path[i..]) <= Members(path) by {
      forall x | x in Members(path[i..]) ensures x in Members(path) {
        var k :| 0 <= k < |path| - i && path[i..][k] == x;
        assert path[i + k] == x;
      }
    }
    assert path[i] in Members(path);
  }

  function Leave<T>(inner: Walk<T>, id: T): Walk<T>
  {
    inner.(visiting := inner.visiting - {id}, visited := inner.visited + {id}, order := inner.order + [id])
  }

  lemma LeavingIsProper<T(!new)>(g: Graph<T>, path: seq<T>, w: Walk<T>, id: T, inner: Walk<T>)
    requires Proper(g, path, w) && id in g && !Entered(w, id)
    requires Proper(g, path + [id], inner) && Later(w.(visiting := w.visiting + {id}), inner)
    requires forall d :: d in g[id] ==> Entered(inner, d)
    ensures Proper(g, path, Leave(inner, id)) && Later(w, Leave(inner, id))
  {
  }

  lemma {:induction false} VisitIsProper<T(!new)>(g: Graph<T>, id: T, path: seq<T>, w: Walk<T>)
    requires Proper(g, path, w) && id in g
    ensures Proper(g, path, Visit(g, id, path, w)) && Later(w, Visit(g, id, path, w)) && Entered(Visit(g, id, path, w), id)
    decreases g.Keys - (w.visiting + w.visited), 0
  {
    if id in w.visited {
    } else if id in w.visiting {
      ClosingIsProper(g, path, w, id);
    } else {
      EnteringIsProper(g, path, w, id);
      var entered := w.(visiting := w.visiting + {id});
      VisitAllIsProper(g, g[id], path + [id], entered);
      LeavingIsProper(g, path, w, id, VisitAll(g, g[id], path + [id], entered));
    }
  }

  lemma {:induction false} VisitAllIsProper<T(!new)>(g: Graph<T>, ids: seq<T>, path: seq<T>, w: Walk<T>)
    requires Proper(g, path, w) && forall id :: id in ids ==> id in g
    ensures Proper(g, path, VisitAll(g, ids, path, w)) && Later(w, VisitAll(g, ids, path, w))
    ensures forall id :: id in ids ==> Entered(VisitAll(g, ids, path, w), id)
    decreases g.Keys - (w.visiting + w.visited), |ids|
  {
    if ids != [] {
      assert ids == [ids[0]] + ids[1..];
      assert ids[0] in ids && forall id :: id in ids[1..] ==> id in ids;
      VisitIsProper(g, ids[0], path, w);
      VisitAllIsProper(g, ids[1..], path, Visit(g, ids[0], path, w));
    }
  }

  // ---------------------------------------------------------------- what gets back is reported

  predicate ReportedFrom<T(==)>(path: seq<T>, j: nat, w: Walk<T>)
  {
    forall i :: j <= i < |path| ==> path[i] in w.cyclic
  }

  /** An edge from a plugin finished meanwhile back into the path has the path reported from there on. */
  ghost predicate BackEdgesReport<T(!new)>(g: Graph<T>, path: seq<T>, w: Walk<T>, r: Walk<T>)
  {
    forall y, j: nat :: y in r.visited && y !in w.visited && j < |path| && Edge(g, y, path[j]) ==> ReportedFrom(path, j, r)
  }

  lemma ClosingReports<T(!new)>(path: seq<T>, w: Walk<T>, j: nat)
    requires Distinct(path) && j < |path|
    ensures ReportedFrom(path, j, CloseCycle(w, path[j], path))
  {
    assert IndexOf(path, path[j]) == j;
    forall i | j <= i < |path| ensures path[i] in Members(path[j..]) {
      assert path[j..][i - j] == path[i];
    }
  }

  lemma ReportedFromStays<T(!new)>(path: seq<T>, j: nat, w: Walk<T>, r: Walk<T>)
    requires ReportedFrom(path, j, w) && w.cyclic <= r.cyclic
    ensures ReportedFrom(path, j, r)
  {
  }

  lemma {:induction false} VisitReportsBackEdges<T(!new)>(g: Graph<T>, id: T, path: seq<T>, w: Walk<T>)
    requires Proper(g, path, w) && id in g
    ensures BackEdgesReport(g, path, w, Visit(g, id, path, w))
    ensures forall j: nat :: j < |path| && path[j] == id ==> ReportedFrom(path, j, Visit(g, id, path, w))
    ensures !Entered(w, id) ==> BackEdgesReport(g, path + [id], w, Visit(g, id, path, w))
    decreases g.Keys - (w.visiting + w.visited), 0
  {
    if id in w.visited {
      assert forall j: nat :: j < |path| ==> path[j] in w.visiting;
    } else if id in w.visiting {
      forall j: nat | j < |path| && path[j] == id ensures ReportedFrom(path, j, Visit(g, id, path, w)) {
        ClosingReports(path, w, j);
      }
    } else {
      assert forall j: nat :: j < |path| ==> path[j] in w.visiting;
      EnteringIsProper(g, path, w, id);
      VisitAllReportsBackEdges(g, g[id], path + [id], w.(visiting := w.visiting + {id}));
      LeavingReports(g, id, path, w, VisitAll(g, g[id], path + [id], w.(visiting := w.visiting + {id})));
    }
  }

  lemma LeavingReports<T(!new)>(g: Graph<T>, id: T, path: seq<T>, w: Walk<T>, inner: Walk<T>)
    requires id in g && BackEdgesReport(g, path + [id], w, inner)
    requires forall j: nat :: j < |path + [id]| && (path + [id])[j] in g[id] ==> ReportedFrom(path + [id], j, inner)
    ensures BackEdgesReport(g, path + [id], w, Leave(inner, id)) && BackEdgesReport(g, path, w, Leave(inner, id))
  {
    var longer, r := path + [id], Leave(inner, id);
    forall y, j: nat | y in r.visited && y !in w.visited && j < |longer| && Edge(g, y, longer[j]) ensures ReportedFrom(longer, j, r) {
      assert ReportedFrom(longer, j, inner);
    }
    forall y, j: nat | y in r.visited && y !in w.visited && j < |path| && Edge(g, y, path[j]) ensures ReportedFrom(path, j, r) {
      assert longer[j] == path[j];
      assert ReportedFrom(longer, j, r);
      assert forall i :: 0 <= i < |path| ==> longer[i] == path[i];
    }
  }

  lemma {:induction false} VisitAllReportsBackEdges<T(!new)>(g: Graph<T>, ids: seq<T>, path: seq<T>, w: Walk<T>)
    requires Proper(g, path, w) && forall id :: id in ids ==> id in g
    ensures BackEdgesReport(g, path, w, VisitAll(g, ids, path, w))
    ensures forall j: nat :: j < |path| && path[j] in ids ==> ReportedFrom(path, j, VisitAll(g, ids, path, w))
    decreases g.Keys - (w.visiting + w.visited), |ids|
  {
    if ids != [] {
      assert ids == [ids[0]] + ids[1..];
      assert ids[0] in ids && forall id :: id in ids[1..] ==> id in ids;
      var middle := Visit(g, ids[0], path, w);
      VisitIsProper(g, ids[0], path, w);
      VisitReportsBackEdges(g, ids[0], path, w);
      VisitAllIsProper(g, ids[1..], path, middle);
      VisitAllReportsBackEdges(g, ids[1..], path, middle);
    }
  }

  // ---------------------------------------------------------------- only what gets back is reported

  /** A chain that leaves from plugins the walk has not entered, except for where it ends. */
  ghost predicate FreshChain<T(!new)>(g: Graph<T>, w: Walk<T>, p: seq<T>)
  {
    p != [] && Chain(g, p) && forall i :: 0 <= i < |p| - 1 ==> !Entered(w, p[i])
  }

  ghost predicate Links<T(!new)>(g: Graph<T>, w: Walk<T>, p: seq<T>, a: T, b: T)
  {
    FreshChain(g, w, p) && p[0] == a && p[|p| - 1] == b
  }

  /** From `a` the walk can still get to the path at place `i` or before. */
  ghost predicate GetsTo<T(!new)>(g: Graph<T>, w: Walk<T>, a: T, path: seq<T>, i: nat)
  {
    exists p, j: nat :: j <= i && j < |path| && Links(g, w, p, a, path[j])
  }

  lemma LinkFurther<T(!new)>(g: Graph<T>, w: Walk<T>, id: T, c: T, path: seq<T>, i: nat)
    requires id in g && c in g[id] && !Entered(w, id) && GetsTo(g, w.(visiting := w.visiting + {id}), c, path + [id], i)
    ensures i < |path| ==> GetsTo(g, w, id, path, i)
    ensures exists p, j: nat :: j <= i && j < |path| + 1 && |p| >= 2 && Links(g, w, p, id, (path + [id])[j])
  {
    var longer, entered := path + [id], w.(visiting := w.visiting + {id});
    var p, j: nat :| j <= i && j < |longer| && Links(g, entered, p, c, longer[j]);
    var q := [id] + p;
    forall k | 0 <= k < |q| - 1 ensures Edge(g, q[k], q[k + 1]) && !Entered(w, q[k]) {
      if k > 0 {
        assert Edge(g, p[k - 1], p[k]) && !Entered(entered, p[k - 1]);
      }
    }
    assert Links(g, w, q, id, longer[j]);
    if i < |path| { assert longer[j] == path[j]; }
  }

  lemma GetsToEarlier<T(!new)>(g: Graph<T>, w: Walk<T>, r: Walk<T>, a: T, path: seq<T>, i: nat)
    requires Later(w, r) && GetsTo(g, r, a, path, i)
    ensures GetsTo(g, w, a, path, i)
  {
    var p, j: nat :| j <= i && j < |path| && Links(g, r, p, a, path[j]);
    assert forall k :: 0 <= k < |p| - 1 ==> !Entered(r, p[k]) && !Entered(w, p[k]);
    assert Links(g, w, p, a, path[j]);
  }

  lemma {:induction false} VisitReportsOnly<T(!new)>(g: Graph<T>, id: T, path: seq<T>, w: Walk<T>, i: nat)
    requires Proper(g, path, w) && id in g && i < |path|
    requires path[i] in Visit(g, id, path, w).cyclic && path[i] !in w.cyclic
    ensures GetsTo(g, w, id, path, i)
    decreases g.Keys - (w.visiting + w.visited), 0
  {
    assert path[i] in w.visiting;
    if id in w.visiting {
      ClosingReportsOnly(g, id, path, w, i);
    } else {
      var longer, entered := path + [id], w.(visiting := w.visiting + {id});
      EnteringIsProper(g, path, w, id);
      assert longer[i] == path[i];
      var c := VisitAllReportsOnly(g, g[id], longer, entered, i);
      LinkFurther(g, w, id, c, path, i);
    }
  }

  lemma ClosingReportsOnly<T(!new)>(g: Graph<T>, id: T, path: seq<T>, w: Walk<T>, i: nat)
    requires Distinct(path) && i < |path| && id in path
    requires path[i] in CloseCycle(w, id, path).cyclic && path[i] !in w.cyclic
    ensures GetsTo(g, w, id, path, i)
  {
    var j := IndexOf(path, id);
    if path[i] != id {
      var k :| 0 <= k < |path| - j && path[j..][k] == path[i];
      assert path[j + k] == path[i];
    }
    assert Links(g, w, [id], id, path[j]);
  }

  lemma {:induction false} VisitAllReportsOnly<T(!new)>(g: Graph<T>, ids: seq<T>, path: seq<T>, w: Walk<T>, i: nat) returns (c: T)
    requires Proper(g, path, w) && (forall id :: id in ids ==> id in g) && i < |path|
    requires path[i] in VisitAll(g, ids, path, w).cyclic && path[i] !in w.cyclic
    ensures c in ids && GetsTo(g, w, c, path, i)
    decreases g.Keys - (w.visiting + w.visited), |ids|
  {
    assert ids == [ids[0]] + ids[1..];
    assert ids[0] in ids && forall id :: id in ids[1..] ==> id in ids;
    var middle := Visit(g, ids[0], path, w);
    VisitIsProper(g, ids[0], path, w);
    if path[i] in middle.cyclic {
      c := ids[0];
      VisitReportsOnly(g, c, path, w, i);
    } else {
      c := VisitAllReportsOnly(g, ids[1..], path, middle, i);
      GetsToEarlier(g, w, middle, c, path, i);
    }
  }

  // ---------------------------------------------------------------- the exact condition

  /** Back to itself or to the path, through plugins not entered yet. */
  ghost predicate GetsBack<T(!new)>(g: Graph<T>, id: T, path: seq<T>, w: Walk<T>)
  {
    exists p, j: nat :: j < |path| + 1 && |p| >= 2 && Links(g, w, p, id, (path + [id])[j])
  }

  /** All that a fresh chain passes through is finished by the end of the visit. */
  lemma {:induction false} FreshChainIsFinished<T(!new)>(g: Graph<T>, id: T, path: seq<T>, w: Walk<T>, p: seq<T>, k: nat)
    requires Proper(g, path, w) && id in g && !Entered(w, id) && FreshChain(g, w, p) && p[0] == id && k < |p| - 1
    ensures p[k] in Visit(g, id, path, w).visited
  {
    VisitIsProper(g, id, path, w);
    if k > 0 {
      FreshChainIsFinished(g, id, path, w, p, k - 1);
      assert Edge(g, p[k - 1], p[k]) && !Entered(w, p[k]);
    }
  }

  /** The walk reports a plugin it enters exactly when the plugin gets back. */
  lemma ReportedExactly<T(!new)>(g: Graph<T>, id: T, path: seq<T>, w: Walk<T>)
    requires Proper(g, path, w) && id in g && !Entered(w, id)
    ensures id in Visit(g, id, path, w).cyclic <==> GetsBack(g, id, path, w)
  {
    var longer, entered, r := path + [id], w.(visiting := w.visiting + {id}), Visit(g, id, path, w);
    assert longer[|path|] == id;
    if GetsBack(g, id, path, w) {
      var p, j: nat :| j < |longer| && |p| >= 2 && Links(g, w, p, id, longer[j]);
      FreshChainIsFinished(g, id, path, w, p, |p| - 2);
      VisitReportsBackEdges(g, id, path, w);
      assert Edge(g, p[|p| - 2], longer[j]) && !Entered(w, p[|p| - 2]);
      assert ReportedFrom(longer, j, r);
    }
    if id in r.cyclic {
      EnteringIsProper(g, path, w, id);
      var c := VisitAllReportsOnly(g, g[id], longer, entered, |path|);
      LinkFurther(g, w, id, c, path, |path|);
    }
  }

  /** Once the walk has left a plugin, whether it is reported no longer changes. */
  lemma ReportsAreFinal<T(!new)>(g: Graph<T>, ids: seq<T>, path: seq<T>, w: Walk<T>, x: T)
    requires Proper(g, path, w) && (forall id :: id in ids ==> id in g) && x in w.visited
    ensures x in VisitAll(g, ids, path, w).cyclic <==> x in w.cyclic
  {
    VisitAllIsProper(g, ids, path, w);
  }
}
