/**
 The depth-first walk behind activation orders and cycle reports
 (packages/plugin-runtime/src/resolver.ts:217-256).

 A graph maps every present plugin to its present dependencies, in the order the walk visits them.
 `Visit` is the walk as a function of its state; the class `DependencyWalk` is the walk as the source
 runs it, over sets and lists it updates. What the walk achieves is proved about the function.
 */
module DependencyGraph {

  type Graph<T> = map<T, seq<T>>

  ghost predicate Closed<T>(g: Graph<T>)
  {
    forall a, d :: a in g && d in g[a] ==> d in g
  }

  predicate Edge<T(==)>(g: Graph<T>, a: T, b: T)
  {
    a in g && b in g[a]
  }

  predicate Chain<T(==)>(g: Graph<T>, p: seq<T>)
  {
    forall i :: 0 <= i < |p| - 1 ==> Edge(g, p[i], p[i + 1])
  }

  /** A closed chain: its last node is its first. */
  predicate IsCycle<T(==)>(g: Graph<T>, p: seq<T>)
  {
    |p| >= 2 && p[0] == p[|p| - 1] && Chain(g, p)
  }

  ghost predicate OnCycle<T(!new)>(g: Graph<T>, x: T)
  {
    exists p :: IsCycle(g, p) && x in p
  }

  ghost predicate Acyclic<T(!new)>(g: Graph<T>)
  {
    forall p :: !IsCycle(g, p)
  }

  // ---------------------------------------------------------------- the walk

  datatype Walk<T> = Walk(visiting: set<T>, visited: set<T>, order: seq<T>, cyclic: set<T>)

  function IndexOf<T(==)>(p: seq<T>, x: T): (i: nat)
    requires x in p
    ensures i < |p| && p[i] == x && x !in p[..i]
  {
    if p[0] == x then 0 else
      assert p == [p[0]] + p[1..];
      1 + IndexOf(p[1..], x)
  }

  function Members<T(==)>(p: seq<T>): set<T>
  {
    set i | 0 <= i < |p| :: p[i]
  }

  /** The closing of a cycle: everything on the path from the plugin met again is on it. */
  function CloseCycle<T>(w: Walk<T>, id: T, path: seq<T>): Walk<T>
    requires id in path
  {
    w.(cyclic := w.cyclic + Members(path[IndexOf(path, id)..]) + {id})
  }

  function Visit<T>(g: Graph<T>, id: T, path: seq<T>, w: Walk<T>): (r: Walk<T>)
    requires Closed(g) && id in g && w.visiting == Members(path)
    ensures r.visiting == w.visiting && w.visited <= r.visited
    decreases g.Keys - (w.visiting + w.visited), 0
  {
    if id in w.visited then w
    else if id in w.visiting then CloseCycle(w, id, path)
    else
      assert Members(path + [id]) == w.visiting + {id} by {
        assert forall i :: 0 <= i < |path| ==> (path + [id])[i] == path[i];
        assert (path + [id])[|path|] == id;
      }
      var inner := VisitAll(g, g[id], path + [id], w.(visiting := w.visiting + {id}));
      inner.(visiting := inner.visiting - {id}, visited := inner.visited + {id}, order := inner.order + [id])
  }

  function VisitAll<T>(g: Graph<T>, ids: seq<T>, path: seq<T>, w: Walk<T>): (r: Walk<T>)
    requires Closed(g) && (forall id :: id in ids ==> id in g) && w.visiting == Members(path)
    ensures r.visiting == w.visiting && w.visited <= r.visited
    decreases g.Keys - (w.visiting + w.visited), |ids|
  {
    if ids == [] then w else VisitAll(g, ids[1..], path, Visit(g, ids[0], path, w))
  }

  /** The whole walk, over every plugin in the given order. */
  function WalkFrom<T>(g: Graph<T>, roots: seq<T>): Walk<T>
    requires Closed(g) && forall id :: id in roots ==> id in g
  {
    VisitAll(g, roots, [], Walk({}, {}, [], {}))
  }

  // ---------------------------------------------------------------- the walk as it is run

  /** The closure `visit` of the source with the collections it captures. */
  class DependencyWalk {
    const graph: Graph<string>
    var visiting: set<string>
    var visited: set<string>
    var activationOrder: seq<string>
    var cyclic: set<string>

    constructor (graph: Graph<string>)
      ensures this.graph == graph && State() == Walk({}, {}, [], {})
    {
      this.graph := graph;
      visiting, visited, activationOrder, cyclic := {}, {}, [], {};
    }

    function State(): Walk<string>
      reads this
    {
      Walk(visiting, visited, activationOrder, cyclic)
    }

    method VisitNode(id: string, path: seq<string>)
      requires Closed(graph) && id in graph && visiting == Members(path)
      modifies this
      ensures State() == Visit(graph, id, path, old(State()))
      decreases graph.Keys - (visiting + visited), 0
    {
      if id in visited {
        return;
      }
      if id in visiting {
        var cycleStart := IndexOf(path, id);
        for i := cycleStart to |path|
          invariant visiting == old(visiting) && visited == old(visited) && activationOrder == old(activationOrder)
          invariant cyclic == old(cyclic) + Members(path[cycleStart..i])
        {
          assert path[cycleStart..i + 1] == path[cycleStart..i] + [path[i]];
          assert Members(path[cycleStart..i + 1]) == Members(path[cycleStart..i]) + {path[i]} by {
            MembersOfAppend(path[cycleStart..i], path[i]);
          }
          cyclic := cyclic + {path[i]};
        }
        assert path[cycleStart..|path|] == path[cycleStart..];
        cyclic := cyclic + {id};
        return;
      }
      MembersOfAppend(path, id);
      visiting := visiting + {id};
      var dependencies := graph[id];
      ghost var entered := State();
      var i := 0;
      while i < |dependencies|
        invariant 0 <= i <= |dependencies| && visiting == entered.visiting && entered.visited <= visited
        invariant VisitAll(graph, dependencies, path + [id], entered)
                  == VisitAll(graph, dependencies[i..], path + [id], State())
      {
        assert dependencies[i..][1..] == dependencies[i + 1..];
        VisitNode(dependencies[i], path + [id]);
        i := i + 1;
      }
      visiting := visiting - {id};
      visited := visited + {id};
      activationOrder := activationOrder + [id];
    }
  }

  lemma MembersOfAppend<T>(p: seq<T>, x: T)
    ensures Members(p + [x]) == Members(p) + {x}
  {
    var q := p + [x];
    assert forall i :: 0 <= i < |p| ==> q[i] == p[i];
    assert q[|p|] == x;
  }

  lemma ChainExtends<T>(g: Graph<T>, p: seq<T>, x: T)
    requires Chain(g, p) && p != [] && Edge(g, p[|p| - 1], x)
    ensures Chain(g, p + [x])
  {
    var q := p + [x];
    forall i | 0 <= i < |p| ensures Edge(g, q[i], q[i + 1]) {
      assert i < |p| - 1 ==> Edge(g, p[i], p[i + 1]);
    }
  }

  // ---------------------------------------------------------------- invariants of the walk

  /** Every dependency of an emitted plugin was emitted before it, or both were reported cyclic. */
  ghost predicate Ordered<T(!new)>(g: Graph<T>, w: Walk<T>)
  {
    forall k, d :: 0 <= k < |w.order| && Edge(g, w.order[k], d) ==>
      d in w.order[..k] || (w.order[k] in w.cyclic && d in w.cyclic)
  }

  ghost predicate Emitted<T(!new)>(g: Graph<T>, w: Walk<T>)
  {
    && (forall i, j :: 0 <= i < j < |w.order| ==> w.order[i] != w.order[j])
    && (forall x :: x in w.order <==> x in w.visited)
    && w.visited <= g.Keys
    && w.visited !! w.visiting
  }

  /** On a cycle all of whose plugins are reported. */
  ghost predicate OnReportedCycle<T(!new)>(g: Graph<T>, reported: set<T>, x: T)
  {
    exists p :: IsCycle(g, p) && x in p && Members(p) <= reported
  }

  ghost predicate Sound<T(!new)>(g: Graph<T>, w: Walk<T>)
  {
    forall x :: x in w.cyclic ==> OnReportedCycle(g, w.cyclic, x)
  }

  ghost predicate Inv<T(!new)>(g: Graph<T>, path: seq<T>, w: Walk<T>)
  {
    && Closed(g)
    && w.visiting == Members(path)
    && w.visiting <= g.Keys
    && Chain(g, path)
    && Emitted(g, w)
    && Ordered(g, w)
    && Sound(g, w)
  }

  /** How `id` was dealt with when the plugin at the end of the path looked at it. */
  ghost predicate Settled<T>(path: seq<T>, id: T, w: Walk<T>)
  {
    id in w.visited || (path != [] && path[|path| - 1] in w.cyclic && id in w.cyclic)
  }

  lemma CycleIsClosed<T(!new)>(g: Graph<T>, id: T, path: seq<T>, w: Walk<T>)
    requires Inv(g, path, w) && id in path && Edge(g, path[|path| - 1], id)
    ensures Inv(g, path, CloseCycle(w, id, path)) && Settled(path, id, CloseCycle(w, id, path))
  {
    var cycle := path[IndexOf(path, id)..] + [id];
    assert IsCycle(g, cycle);
    var r := CloseCycle(w, id, path);
    assert Members(cycle) <= r.cyclic by {
      MembersOfAppend(path[IndexOf(path, id)..], id);
    }
    forall x | x in r.cyclic ensures OnReportedCycle(g, r.cyclic, x) {
      if x in w.cyclic {
        var p :| IsCycle(g, p) && x in p && Members(p) <= w.cyclic;
        assert Members(p) <= r.cyclic;
      } else {
        assert x in cycle;
      }
    }
    var last := path[IndexOf(path, id)..][|path| - IndexOf(path, id) - 1];
    assert last == path[|path| - 1] && last in Members(path[IndexOf(path, id)..]);
  }

  lemma {:induction false} VisitKeepsInv<T(!new)>(g: Graph<T>, id: T, path: seq<T>, w: Walk<T>)
    requires Inv(g, path, w) && id in g
    requires path != [] ==> Edge(g, path[|path| - 1], id)
    ensures Inv(g, path, Visit(g, id, path, w)) && Settled(path, id, Visit(g, id, path, w))
    ensures w.cyclic <= Visit(g, id, path, w).cyclic
    decreases g.Keys - (w.visiting + w.visited), 0
  {
    if id in w.visited {
    } else if id in w.visiting {
      CycleIsClosed(g, id, path, w);
    } else {
      MembersOfAppend(path, id);
      var entered := w.(visiting := w.visiting + {id});
      assert Inv(g, path + [id], entered);
      forall d | d in g[id] ensures Edge(g, (path + [id])[|path|], d) {}
      VisitAllKeepsInv(g, g[id], path + [id], entered);
      EmitKeepsInv(g, id, path, w, VisitAll(g, g[id], path + [id], entered));
    }
  }

  lemma EmitKeepsInv<T(!new)>(g: Graph<T>, id: T, path: seq<T>, w: Walk<T>, inner: Walk<T>)
    requires Inv(g, path + [id], inner) && Members(path + [id]) == w.visiting + {id} && Members(path) == w.visiting
    requires id in g && id !in w.visiting
    requires forall d :: d in g[id] ==> Settled(path + [id], d, inner)
    ensures Inv(g, path,
      inner.(visiting := inner.visiting - {id}, visited := inner.visited + {id}, order := inner.order + [id]))
  {
    var r := inner.(visiting := inner.visiting - {id}, visited := inner.visited + {id}, order := inner.order + [id]);
    assert r.visiting == w.visiting;
    assert Chain(g, path) by {
      forall i | 0 <= i < |path| - 1 ensures Edge(g, path[i], path[i + 1]) {
        assert Edge(g, (path + [id])[i], (path + [id])[i + 1]);
      }
    }
    forall k, d | 0 <= k < |r.order| && Edge(g, r.order[k], d)
      ensures d in r.order[..k] || (r.order[k] in r.cyclic && d in r.cyclic)
    {
      if k < |inner.order| {
        assert r.order[..k] == inner.order[..k] && r.order[k] == inner.order[k];
      } else {
        assert r.order[..k] == inner.order && r.order[k] == id;
        assert Settled(path + [id], d, inner) && (path + [id])[|path|] == id;
      }
    }
    assert Emitted(g, r);
  }

  lemma {:induction false} VisitAllKeepsInv<T(!new)>(g: Graph<T>, ids: seq<T>, path: seq<T>, w: Walk<T>)
    requires Inv(g, path, w) && (forall id :: id in ids ==> id in g)
    requires path != [] ==> forall id :: id in ids ==> Edge(g, path[|path| - 1], id)
    ensures Inv(g, path, VisitAll(g, ids, path, w)) && w.cyclic <= VisitAll(g, ids, path, w).cyclic
    ensures forall id :: id in ids ==> Settled(path, id, VisitAll(g, ids, path, w))
    decreases g.Keys - (w.visiting + w.visited), |ids|
  {
    if ids != [] {
      assert ids == [ids[0]] + ids[1..];
      assert ids[0] in ids && forall id :: id in ids[1..] ==> id in ids;
      VisitKeepsInv(g, ids[0], path, w);
      VisitAllKeepsInv(g, ids[1..], path, Visit(g, ids[0], path, w));
    }
  }

  // ---------------------------------------------------------------- what the walk achieves

  ghost predicate Roots<T(!new)>(g: Graph<T>, roots: seq<T>)
  {
    Closed(g) && forall id :: id in roots <==> id in g
  }

  lemma WalkInv<T(!new)>(g: Graph<T>, roots: seq<T>)
    requires Roots(g, roots)
    ensures Inv(g, [], WalkFrom(g, roots)) && WalkFrom(g, roots).visited == g.Keys
  {
    var start: Walk<T> := Walk({}, {}, [], {});
    VisitAllKeepsInv(g, roots, [], start);
    assert forall id :: id in g ==> id in roots && Settled([], id, WalkFrom(g, roots));
  }

  lemma {:induction false} UnreportedChainDescends<T(!new)>(g: Graph<T>, w: Walk<T>, p: seq<T>, k: nat)
    requires Ordered(g, w) && Chain(g, p) && p != [] && k < |w.order| && w.order[k] == p[0]
    requires forall i :: 0 <= i < |p| - 1 ==> p[i] !in w.cyclic || p[i + 1] !in w.cyclic
    ensures |p| > 1 ==> exists j :: 0 <= j < k && w.order[j] == p[|p| - 1]
    decreases |p|
  {
    if |p| > 1 {
      assert Edge(g, p[0], p[1]);
      assert p[1] in w.order[..k];
      var j :| 0 <= j < k && w.order[j] == p[1];
      forall i | 0 <= i < |p| - 2 ensures Edge(g, p[1..][i], p[1..][i + 1]) {
        assert Edge(g, p[i + 1], p[i + 2]);
      }
      UnreportedChainDescends(g, w, p[1..], j);
    }
  }

  /** No cycle goes unnoticed: some edge of it has both of its ends reported. */
  lemma EveryCycleIsHit<T(!new)>(g: Graph<T>, roots: seq<T>, p: seq<T>)
    requires Roots(g, roots) && IsCycle(g, p)
    ensures exists i :: 0 <= i < |p| - 1 && p[i] in WalkFrom(g, roots).cyclic && p[i + 1] in WalkFrom(g, roots).cyclic
  {
    var w := WalkFrom(g, roots);
    WalkInv(g, roots);
    if forall i :: 0 <= i < |p| - 1 ==> p[i] !in w.cyclic || p[i + 1] !in w.cyclic {
      assert Edge(g, p[0], p[1]);
      assert p[0] in w.order;
      var k :| 0 <= k < |w.order| && w.order[k] == p[0];
      UnreportedChainDescends(g, w, p, k);
    }
  }

  /** A cycle is reported exactly when there is one, and every reported plugin lies on one that is reported as a whole. */
  lemma CyclesAreReported<T(!new)>(g: Graph<T>, roots: seq<T>)
    requires Roots(g, roots)
    ensures WalkFrom(g, roots).cyclic == {} <==> Acyclic(g)
    ensures forall x :: x in WalkFrom(g, roots).cyclic ==>
              x in g && OnCycle(g, x) && OnReportedCycle(g, WalkFrom(g, roots).cyclic, x)
  {
    var w := WalkFrom(g, roots);
    WalkInv(g, roots);
    forall x | x in w.cyclic ensures x in g && OnCycle(g, x) && OnReportedCycle(g, w.cyclic, x) {
      var p :| IsCycle(g, p) && x in p && Members(p) <= w.cyclic;
      var i :| 0 <= i < |p| && p[i] == x;
      if i < |p| - 1 { assert Edge(g, p[i], p[i + 1]); } else { assert Edge(g, p[0], p[1]); }
    }
    forall p | w.cyclic == {} ensures !IsCycle(g, p) {
      if IsCycle(g, p) { EveryCycleIsHit(g, roots, p); }
    }
  }

  /** Without a reported cycle the order lists every plugin once, each after all its dependencies. */
  ghost predicate ActivationOrder<T(!new)>(g: Graph<T>, order: seq<T>)
  {
    && (forall i, j :: 0 <= i < j < |order| ==> order[i] != order[j])
    && (forall x :: x in order <==> x in g)
    && (forall k, d :: 0 <= k < |order| && Edge(g, order[k], d) ==> d in order[..k])
  }

  lemma OrderIsTopological<T(!new)>(g: Graph<T>, roots: seq<T>)
    requires Roots(g, roots) && WalkFrom(g, roots).cyclic == {}
    ensures ActivationOrder(g, WalkFrom(g, roots).order)
  {
    WalkInv(g, roots);
  }

  // 0 -> 1, 0 -> 2, 1 -> 0, 2 -> 1
  const TWO_CYCLES: Graph<int> := map[0 := [1, 2], 1 := [0], 2 := [1]]

  const AFTER_ONE: Walk<int> := Walk({0}, {1}, [1], {0, 1})

  const AFTER_TWO: Walk<int> := Walk({0}, {1, 2}, [1, 2], {0, 1})

  lemma MeetZeroAgain()
    ensures Members([0, 1]) == {0, 1}
    ensures Visit(TWO_CYCLES, 0, [0, 1], Walk({0, 1}, {}, [], {})) == Walk({0, 1}, {}, [], {0, 1})
  {
    assert [] + [0] == [0] && [0] + [1] == [0, 1];
    MembersOfAppend([], 0);
    MembersOfAppend([0], 1);
    assert IndexOf([0, 1], 0) == 0 && [0, 1][0..] == [0, 1];
  }

  lemma VisitOne()
    ensures Members([0]) == {0} && Visit(TWO_CYCLES, 1, [0], Walk({0}, {}, [], {})) == AFTER_ONE
  {
    assert [] + [0] == [0] && [0] + [1] == [0, 1];
    MembersOfAppend([], 0);
    MembersOfAppend([0], 1);
    var inside := Walk({0, 1}, {}, [], {});
    MeetZeroAgain();
    assert VisitAll(TWO_CYCLES, [0], [0, 1], inside) == inside.(cyclic := {0, 1});
    assert {0, 1} - {1} == {0};
  }

  lemma VisitTwo()
    ensures Members([0]) == {0} && Visit(TWO_CYCLES, 2, [0], AFTER_ONE) == AFTER_TWO
  {
    assert [] + [0] == [0] && [0] + [2] == [0, 2];
    MembersOfAppend([], 0);
    MembersOfAppend([0], 2);
    var inside := Walk({0, 2}, {1}, [1], {0, 1});
    assert VisitAll(TWO_CYCLES, [1], [0, 2], inside) == inside;
    assert {0, 2} - {2} == {0};
  }

  lemma VisitZero()
    ensures Visit(TWO_CYCLES, 0, [], Walk({}, {}, [], {})) == Walk({}, {0, 1, 2}, [1, 2, 0], {0, 1})
  {
    assert [] + [0] == [0] && Members<int>([]) == {} && [1, 2][1..] == [2];
    VisitOne();
    VisitTwo();
    assert VisitAll(TWO_CYCLES, [2], [0], AFTER_ONE) == AFTER_TWO;
    assert VisitAll(TWO_CYCLES, [1, 2], [0], Walk({0}, {}, [], {})) == AFTER_TWO;
    assert {0} - {0} == {} && {1, 2} + {0} == {0, 1, 2} && {} + {0} == {0};
  }

  /**
   Not every plugin on a cycle is reported: 2 lies on the cycle 0 -> 2 -> 1 -> 0, but 1 is finished by
   the time the walk reaches it through 2.
   */
  lemma SomeCycleMembersAreNotReported()
    ensures Roots(TWO_CYCLES, [0, 1, 2]) && OnCycle(TWO_CYCLES, 2) && WalkFrom(TWO_CYCLES, [0, 1, 2]).cyclic == {0, 1}
  {
    assert IsCycle(TWO_CYCLES, [0, 2, 1, 0]) && 2 in [0, 2, 1, 0];
    assert Members<int>([]) == {} && [0, 1, 2][1..] == [1, 2];
    VisitZero();
    assert VisitAll(TWO_CYCLES, [1, 2], [], Walk({}, {0, 1, 2}, [1, 2, 0], {0, 1})) == Walk({}, {0, 1, 2}, [1, 2, 0], {0, 1});
  }
}
