/**
 * The module dependency graph: typed edges between modules, kind-filtered
 * queries, and a depth-first topological sort that follows only Value edges
 * and reports a Value cycle as the path that closes it.
 */
module DependencyGraphs {

  import opened Wrappers
  import opened Sequences
  import opened ModuleErrors

  /** Type-only imports are erased before run time; Value imports fix initialisation order. */
  datatype EdgeKind = TypeOnly | Value

  datatype DependencyEdge = DependencyEdge(target: ModuleId, kind: EdgeKind)

  /** Module id to its dependency edges, in the order they were registered. */
  type Adjacency = map<ModuleId, seq<DependencyEdge>>

  /** `u` has a Value edge to `v`. */
  predicate ValueEdge(edges: Adjacency, u: ModuleId, v: ModuleId) {
    u in edges && DependencyEdge(v, Value) in edges[u]
  }

  /** The edges a registration list describes, in its order. */
  function ToEdges(deps: seq<(ModuleId, EdgeKind)>): seq<DependencyEdge> {
    seq(|deps|, i requires 0 <= i < |deps| => DependencyEdge(deps[i].0, deps[i].1))
  }

  /** The targets of a registration list. */
  function DepTargets(deps: seq<(ModuleId, EdgeKind)>): set<ModuleId> {
    set i | 0 <= i < |deps| :: deps[i].0
  }

  /** The targets of all edges, in order. */
  function Targets(es: seq<DependencyEdge>): (r: seq<ModuleId>)
    ensures |r| == |es|
  {
    if es == [] then [] else [es[0].target] + Targets(es[1..])
  }

  /** The targets of the edges of kind `k`, in the order of the edges. */
  function TargetsOfKind(es: seq<DependencyEdge>, k: EdgeKind): (r: seq<ModuleId>)
    ensures |r| <= |es|
    ensures forall t :: t in r <==> DependencyEdge(t, k) in es
  {
    if es == [] then []
    else if es[0].kind == k then [es[0].target] + TargetsOfKind(es[1..], k)
    else TargetsOfKind(es[1..], k)
  }

  /** `c` is an order-preserving merge of `a` and `b`: each element comes from exactly one side. */
  predicate Interleaves<T(==)>(a: seq<T>, b: seq<T>, c: seq<T>)
    decreases |c|
  {
    if c == [] then a == [] && b == []
    else
      || (a != [] && a[0] == c[0] && Interleaves(a[1..], b, c[1..]))
      || (b != [] && b[0] == c[0] && Interleaves(a, b[1..], c[1..]))
  }

  /**
   * `a` and `b` are what sorting the edges by kind gives: walking the edges
   * in order, the target of each Value edge is the next entry of `a` and the
   * target of each type-only edge the next entry of `b`.
   */
  predicate SplitsByKind(es: seq<DependencyEdge>, a: seq<ModuleId>, b: seq<ModuleId>)
    decreases |es|
  {
    if es == [] then a == [] && b == []
    else if es[0].kind == Value then a != [] && a[0] == es[0].target && SplitsByKind(es[1..], a[1..], b)
    else b != [] && b[0] == es[0].target && SplitsByKind(es[1..], a, b[1..])
  }

  /** The split by kind is unique: the edges determine both sides. */
  lemma {:induction false} SplitsByKindUnique(es: seq<DependencyEdge>, a: seq<ModuleId>, b: seq<ModuleId>, a': seq<ModuleId>, b': seq<ModuleId>)
    requires SplitsByKind(es, a, b) && SplitsByKind(es, a', b')
    ensures a == a' && b == b'
    decreases |es|
  {
    if es != [] {
      if es[0].kind == Value {
        SplitsByKindUnique(es[1..], a[1..], b, a'[1..], b');
        assert a == [a[0]] + a[1..] && a' == [a'[0]] + a'[1..];
      } else {
        SplitsByKindUnique(es[1..], a, b[1..], a', b'[1..]);
        assert b == [b[0]] + b[1..] && b' == [b'[0]] + b'[1..];
      }
    }
  }

  /** Filtering by kind is the split by kind. */
  lemma {:induction false} KindsSplitTargets(es: seq<DependencyEdge>)
    ensures SplitsByKind(es, TargetsOfKind(es, Value), TargetsOfKind(es, TypeOnly))
  {
    if es != [] {
      KindsSplitTargets(es[1..]);
      if es[0].kind == Value {
        assert TargetsOfKind(es, Value)[1..] == TargetsOfKind(es[1..], Value);
      } else {
        assert TargetsOfKind(es, TypeOnly)[1..] == TargetsOfKind(es[1..], TypeOnly);
      }
    }
  }

  /** A target occurs among the targets of kind `k` as often as the edge to it of kind `k` occurs. */
  lemma {:induction false} KindCounts(es: seq<DependencyEdge>, k: EdgeKind, t: ModuleId)
    ensures multiset(TargetsOfKind(es, k))[t] == multiset(es)[DependencyEdge(t, k)]
  {
    if es != [] {
      KindCounts(es[1..], k, t);
      assert es == [es[0]] + es[1..];
      assert multiset(es) == multiset{es[0]} + multiset(es[1..]);
      if es[0].kind == k {
        assert multiset(TargetsOfKind(es, k)) == multiset{es[0].target} + multiset(TargetsOfKind(es[1..], k));
      }
    }
  }

  /** A split by kind is an order-preserving merge of the full target list. */
  lemma {:induction false} SplitInterleaves(es: seq<DependencyEdge>, a: seq<ModuleId>, b: seq<ModuleId>)
    requires SplitsByKind(es, a, b)
    ensures Interleaves(a, b, Targets(es))
    decreases |es|
  {
    if es != [] {
      if es[0].kind == Value {
        SplitInterleaves(es[1..], a[1..], b);
      } else {
        SplitInterleaves(es[1..], a, b[1..]);
      }
    }
  }

  /** The two sides of a split by kind hold as many targets, and the same ones, as the edges. */
  lemma {:induction false} SplitCounts(es: seq<DependencyEdge>, a: seq<ModuleId>, b: seq<ModuleId>)
    requires SplitsByKind(es, a, b)
    ensures |a| + |b| == |es|
    ensures multiset(a) + multiset(b) == multiset(Targets(es))
    decreases |es|
  {
    if es != [] {
      assert Targets(es) == [es[0].target] + Targets(es[1..]);
      if es[0].kind == Value {
        SplitCounts(es[1..], a[1..], b);
        assert a == [a[0]] + a[1..];
      } else {
        SplitCounts(es[1..], a, b[1..]);
        assert b == [b[0]] + b[1..];
      }
    }
  }

  /** The Value targets and the type-only targets merge, in order, into the full target list. */
  lemma {:induction false} KindsPartitionTargets(es: seq<DependencyEdge>)
    ensures Interleaves(TargetsOfKind(es, Value), TargetsOfKind(es, TypeOnly), Targets(es))
    ensures |TargetsOfKind(es, Value)| + |TargetsOfKind(es, TypeOnly)| == |es|
    ensures multiset(TargetsOfKind(es, Value)) + multiset(TargetsOfKind(es, TypeOnly)) == multiset(Targets(es))
  {
    KindsSplitTargets(es);
    SplitInterleaves(es, TargetsOfKind(es, Value), TargetsOfKind(es, TypeOnly));
    SplitCounts(es, TargetsOfKind(es, Value), TargetsOfKind(es, TypeOnly));
  }

  /** Every Value edge `u -> v` between members of `order` puts `v` strictly before `u`. */
  predicate IsTopologicalOrder(edges: Adjacency, order: seq<ModuleId>) {
    forall i, j :: 0 <= i < |order| && 0 <= j < |order| && ValueEdge(edges, order[i], order[j]) ==> j < i
  }

  /** `order` lists every module of `nodes` exactly once, and nothing else. */
  predicate IsPermutationOf(order: seq<ModuleId>, nodes: set<ModuleId>) {
    NoDuplicates(order) && (forall x :: x in order ==> x in nodes) && (forall x :: x in nodes ==> x in order)
  }

  /**
   * A reported cycle: a closed walk along Value edges, at least two long,
   * whose first and last entries coincide and whose other entries are distinct.
   */
  predicate IsValueCycle(edges: Adjacency, c: seq<ModuleId>) {
    && |c| >= 2
    && c[0] == c[|c| - 1]
    && NoDuplicates(c[..|c| - 1])
    && forall k :: 0 <= k < |c| - 1 ==> ValueEdge(edges, c[k], c[k + 1])
  }

  ghost predicate HasValueCycle(edges: Adjacency) {
    exists c :: IsValueCycle(edges, c)
  }

  lemma {:induction false} WalkDescends(edges: Adjacency, order: seq<ModuleId>, c: seq<ModuleId>, k: nat)
    requires IsTopologicalOrder(edges, order) && NoDuplicates(order)
    requires forall x :: x in c ==> x in order
    requires 0 < k < |c|
    requires forall m :: 0 <= m < |c| - 1 ==> ValueEdge(edges, c[m], c[m + 1])
    ensures FirstIndex(order, c[k]) < FirstIndex(order, c[0])
  {
    var i, j := FirstIndex(order, c[k - 1]), FirstIndex(order, c[k]);
    assert ValueEdge(edges, order[i], order[j]);
    if k > 1 {
      WalkDescends(edges, order, c, k - 1);
    }
  }

  /**
   * No walk of Value edges through the modules of a topological order comes
   * back to where it started: a graph with a Value cycle cannot be ordered.
   */
  lemma OrderExcludesCycle(edges: Adjacency, order: seq<ModuleId>, c: seq<ModuleId>)
    requires IsTopologicalOrder(edges, order) && NoDuplicates(order)
    requires forall x :: x in c ==> x in order
    requires |c| >= 2
    requires forall m :: 0 <= m < |c| - 1 ==> ValueEdge(edges, c[m], c[m + 1])
    ensures c[0] != c[|c| - 1]
  {
    WalkDescends(edges, order, c, |c| - 1);
  }

  /** A graph whose Value edges all start inside some topological order has no Value cycle. */
  lemma OrderedGraphIsAcyclic(edges: Adjacency, order: seq<ModuleId>)
    requires IsTopologicalOrder(edges, order) && NoDuplicates(order)
    requires forall u, v :: ValueEdge(edges, u, v) ==> u in order
    ensures !HasValueCycle(edges)
  {
    forall c | IsValueCycle(edges, c)
      ensures false
    {
      forall x | x in c
        ensures x in order
      {
        var k :| 0 <= k < |c| && c[k] == x;
        var k' := if k < |c| - 1 then k else 0;
        assert ValueEdge(edges, c[k'], c[k' + 1]);
      }
      OrderExcludesCycle(edges, order, c);
    }
  }

  /** The graph of the source: an edge map and a node set that also holds unregistered targets. */
  class DependencyGraph {
    var edges: Adjacency
    var nodes: set<ModuleId>

    /** Every registered module and every edge target is a node. */
    ghost predicate Valid()
      reads this
    {
      && edges.Keys <= nodes
      && forall u, e :: u in edges && e in edges[u] ==> e.target in nodes
    }

    constructor ()
      ensures Valid() && edges == map[] && nodes == {}
    {
      edges := map[];
      nodes := {};
    }

    /** Whether `id` is known, registered or only named as a target. */
    function Contains(id: ModuleId): (r: bool)
      reads this
      ensures Valid() && id in edges ==> r
      ensures Valid() && (exists u, e :: u in edges && e in edges[u] && e.target == id) ==> r
    {
      id in nodes
    }

    /** All known modules; their order is unspecified. */
    function Modules(): (r: set<ModuleId>)
      reads this
      ensures forall id :: id in r <==> Contains(id)
    {
      nodes
    }

    /** The registered edges of `id`, or None when `id` was never registered. */
    function GetDependencies(id: ModuleId): (r: Option<seq<DependencyEdge>>)
      reads this
      ensures r.Some? <==> id in edges
      ensures Valid() && r.Some? ==> Contains(id) && forall e :: e in r.value ==> Contains(e.target)
    {
      if id in edges then Some(edges[id]) else None
    }

    /** The targets of the Value edges of `id`, in registration order; empty when unregistered. */
    function GetValueDependencies(id: ModuleId): (r: seq<ModuleId>)
      reads this
      ensures forall t :: t in r <==> ValueEdge(edges, id, t)
      ensures id !in edges ==> r == []
      ensures id in edges ==> |r| <= |edges[id]|
    {
      if id in edges then TargetsOfKind(edges[id], Value) else []
    }

    /** The targets of the type-only edges of `id`, in registration order; empty when unregistered. */
    function GetTypeDependencies(id: ModuleId): (r: seq<ModuleId>)
      reads this
      ensures forall t :: t in r <==> id in edges && DependencyEdge(t, TypeOnly) in edges[id]
      ensures id !in edges ==> r == []
      ensures id in edges ==> |r| <= |edges[id]|
    {
      if id in edges then TargetsOfKind(edges[id], TypeOnly) else []
    }

    /** The two filtered queries split the edge list of every module. */
    lemma QueriesPartitionDependencies(id: ModuleId)
      requires id in edges
      ensures Interleaves(GetValueDependencies(id), GetTypeDependencies(id), Targets(GetDependencies(id).value))
      ensures SplitsByKind(edges[id], GetValueDependencies(id), GetTypeDependencies(id))
      ensures forall t :: multiset(GetValueDependencies(id))[t] == multiset(edges[id])[DependencyEdge(t, Value)]
      ensures forall t :: multiset(GetTypeDependencies(id))[t] == multiset(edges[id])[DependencyEdge(t, TypeOnly)]
    {
      KindsPartitionTargets(edges[id]);
      KindsSplitTargets(edges[id]);
      forall t
        ensures multiset(GetValueDependencies(id))[t] == multiset(edges[id])[DependencyEdge(t, Value)]
        ensures multiset(GetTypeDependencies(id))[t] == multiset(edges[id])[DependencyEdge(t, TypeOnly)]
      {
        KindCounts(edges[id], Value, t);
        KindCounts(edges[id], TypeOnly, t);
      }
    }

    /**
     * Registers `id` with the given dependencies, replacing any edges it had.
     * `id` and every target become nodes; nothing else changes.
     */
    method AddModule(id: ModuleId, dependencies: seq<(ModuleId, EdgeKind)>)
      requires Valid()
      modifies this
      ensures Valid()
      ensures nodes == old(nodes) + {id} + DepTargets(dependencies)
      ensures edges == old(edges)[id := ToEdges(dependencies)]
      ensures Contains(id) && forall i :: 0 <= i < |dependencies| ==> Contains(dependencies[i].0)
      ensures GetDependencies(id) == Some(ToEdges(dependencies))
      ensures forall m :: m != id ==> GetDependencies(m) == old(GetDependencies(m))
    {
      nodes := nodes + {id};
      var es: seq<DependencyEdge> := [];
      var i := 0;
      while i < |dependencies|
        invariant 0 <= i <= |dependencies|
        invariant es == ToEdges(dependencies[..i])
        invariant nodes == old(nodes) + {id} + DepTargets(dependencies[..i])
        invariant edges == old(edges)
      {
        var (target, kind) := dependencies[i];
        nodes := nodes + {target};
        es := es + [DependencyEdge(target, kind)];
        assert dependencies[..i + 1] == dependencies[..i] + [dependencies[i]];
        assert DepTargets(dependencies[..i + 1]) == DepTargets(dependencies[..i]) + {target};
        i := i + 1;
      }
      assert dependencies[..i] == dependencies;
      edges := edges[id := es];
    }

    /**
     * The bookkeeping of the depth-first search: `sorted` lists the finished
     * modules `visited` in an order that respects Value edges and is closed
     * under them; `path` is the chain of Value edges being explored and
     * `visiting` its elements.
     */
    ghost predicate DfsState(visited: set<ModuleId>, visiting: set<ModuleId>, sorted: seq<ModuleId>, path: seq<ModuleId>)
      reads this
    {
      && Valid()
      && visited <= nodes && visiting <= nodes
      && (forall x :: x in sorted <==> x in visited)
      && NoDuplicates(sorted)
      && (forall x :: x in path <==> x in visiting)
      && NoDuplicates(path)
      && visited !! visiting
      && (forall k :: 0 <= k < |path| - 1 ==> ValueEdge(edges, path[k], path[k + 1]))
      && (forall v, w :: v in visited && ValueEdge(edges, v, w) ==> w in visited)
      && IsTopologicalOrder(edges, sorted)
    }

    /** Finishing `node` once all its Value targets are finished keeps the order valid. */
    lemma Finish(node: ModuleId, visited: set<ModuleId>, visiting: set<ModuleId>, sorted: seq<ModuleId>, path: seq<ModuleId>)
      requires DfsState(visited, visiting + {node}, sorted, path + [node])
      requires node !in visiting
      requires forall w :: ValueEdge(edges, node, w) ==> w in visited
      ensures DfsState(visited + {node}, visiting, sorted + [node], path)
    {
      var sorted' := sorted + [node];
      assert forall v :: v in visited ==> !ValueEdge(edges, v, node);
      assert forall i :: 0 <= i < |sorted| ==> sorted'[i] == sorted[i];
      assert sorted'[|sorted|] == node;
      var longer := path + [node];
      assert forall k :: 0 <= k < |path| ==> path[k] == longer[k];
      assert longer[|path|] == node;
      assert forall k :: 0 <= k < |path| ==> path[k] != node;
      assert node !in path;
    }

    /**
     * The reported cycle: the part of the path from the first occurrence of
     * the revisited module, with that module appended once more.
     */
    lemma CycleFromPath(node: ModuleId, visited: set<ModuleId>, visiting: set<ModuleId>, sorted: seq<ModuleId>, path: seq<ModuleId>)
      requires DfsState(visited, visiting, sorted, path)
      requires node in visiting
      requires path != [] ==> ValueEdge(edges, path[|path| - 1], node)
      ensures IsValueCycle(edges, path[FirstIndex(path, node)..] + [node])
    {
      var start := FirstIndex(path, node);
      var c := path[start..] + [node];
      assert c[..|c| - 1] == path[start..];
      forall k | 0 <= k < |c| - 1
        ensures ValueEdge(edges, c[k], c[k + 1])
      {
        if k < |c| - 2 {
          assert c[k] == path[start + k] && c[k + 1] == path[start + k + 1];
        } else {
          assert c[k] == path[|path| - 1];
        }
      }
    }

    /**
     * Depth-first visit of `node`. `visiting` and `path` are passed by value:
     * the caller's copies are what the source restores when it pops the path
     * and removes `node` from the in-progress set. On success the finished
     * set and the order grow; on a back edge the cycle is reported.
     */
    method Visit(node: ModuleId, visited: set<ModuleId>, visiting: set<ModuleId>, sorted: seq<ModuleId>, path: seq<ModuleId>)
      returns (r: Result<(), ModuleError>, visited': set<ModuleId>, sorted': seq<ModuleId>)
      requires DfsState(visited, visiting, sorted, path)
      requires node in nodes
      requires path != [] ==> ValueEdge(edges, path[|path| - 1], node)
      ensures r.Success? ==> DfsState(visited', visiting, sorted', path)
      ensures r.Success? ==> visited <= visited' && node in visited'
      ensures r.Success? ==> |sorted| <= |sorted'| && sorted'[..|sorted|] == sorted
      ensures r.Failure? ==> r.error.CircularDependency? && IsValueCycle(edges, r.error.cycle)
      ensures node in visiting ==> r == Failure(CircularDependency(path[FirstIndex(path, node)..] + [node]))
      ensures node in visited ==> r.Success? && visited' == visited && sorted' == sorted
      decreases nodes - visited - visiting
    {
      if node in visiting {
        CycleFromPath(node, visited, visiting, sorted, path);
        var cycleStart := FirstIndex(path, node);
        var cycle := path[cycleStart..] + [node];
        return Failure(CircularDependency(cycle)), visited, sorted;
      }
      if node in visited {
        return Success(()), visited, sorted;
      }
      var inProgress := visiting + {node};
      var longerPath := path + [node];
      visited', sorted' := visited, sorted;
      assert forall k :: 0 <= k < |path| ==> path[k] == longerPath[k];
      assert DfsState(visited', inProgress, sorted', longerPath);
      if node in edges {
        var es := edges[node];
        var i := 0;
        while i < |es|
          invariant 0 <= i <= |es|
          invariant DfsState(visited', inProgress, sorted', longerPath)
          invariant visited <= visited'
          invariant |sorted| <= |sorted'| && sorted'[..|sorted|] == sorted
          invariant forall k :: 0 <= k < i && es[k].kind == Value ==> es[k].target in visited'
        {
          var edge := es[i];
          if edge.kind == Value {
            assert edge in es && longerPath[|longerPath| - 1] == node;
            var sub;
            sub, visited', sorted' := Visit(edge.target, visited', inProgress, sorted', longerPath);
            if sub.Failure? {
              return sub, visited', sorted';
            }
          }
          i := i + 1;
        }
      }
      forall w | ValueEdge(edges, node, w)
        ensures w in visited'
      {
        var k :| 0 <= k < |edges[node]| && edges[node][k] == DependencyEdge(w, Value);
      }
      Finish(node, visited', visiting, sorted', path);
      ghost var before := sorted';
      visited' := visited' + {node};
      sorted' := sorted' + [node];
      assert sorted'[..|sorted|] == before[..|sorted|];
      r := Success(());
    }

    /**
     * Orders all modules so that every module comes after the modules it
     * depends on through Value edges, or reports a Value cycle. The modules
     * are started from in an arbitrary order, as the source iterates a hash set.
     */
    method TopologicalSort() returns (r: Result<seq<ModuleId>, ModuleError>)
      requires Valid()
      ensures r.Success? ==> IsPermutationOf(r.value, nodes) && IsTopologicalOrder(edges, r.value)
      ensures r.Failure? ==> r.error.CircularDependency? && IsValueCycle(edges, r.error.cycle)
      ensures r.Success? <==> !HasValueCycle(edges)
    {
      var sorted: seq<ModuleId> := [];
      var visited: set<ModuleId> := {};
      var visiting: set<ModuleId> := {};
      var todo := nodes;
      while todo != {}
        invariant todo <= nodes
        invariant DfsState(visited, visiting, sorted, [])
        invariant visiting == {}
        invariant nodes - todo <= visited
        decreases todo
      {
        var node :| node in todo;
        todo := todo - {node};
        if node !in visited {
          var res;
          res, visited, sorted := Visit(node, visited, visiting, sorted, []);
          if res.Failure? {
            assert IsValueCycle(edges, res.error.cycle);
            return Failure(res.error);
          }
        }
      }
      forall c | IsValueCycle(edges, c)
        ensures false
      {
        assert ValueEdge(edges, c[0], c[1]);
        forall x | x in c
          ensures x in sorted
        {
          var k :| 0 <= k < |c| && c[k] == x;
          if k < |c| - 1 {
            assert ValueEdge(edges, c[k], c[k + 1]);
          } else {
            assert ValueEdge(edges, c[k - 1], c[k]);
            var m :| 0 <= m < |edges[c[k - 1]]| && edges[c[k - 1]][m] == DependencyEdge(x, Value);
          }
        }
        OrderExcludesCycle(edges, sorted, c);
      }
      r := Success(sorted);
    }
  }
}
