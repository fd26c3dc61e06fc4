/**
 * The graphs of the dependency-graph tests, with what the sort's contract
 * implies for each of them.
 */
module DependencyScenarios {

  import opened Sequences
  import opened ModuleErrors
  import opened DependencyGraphs

  function Id(name: string): ModuleId {
    NewModuleId(name)
  }

  /** a -> a (Value). */
  function SelfLoop(): Adjacency {
    map[Id("a") := [DependencyEdge(Id("a"), Value)]]
  }

  /** a -> b -> c -> a, all Value edges. */
  function ValueRing(): Adjacency {
    map[Id("a") := [DependencyEdge(Id("b"), Value)],
        Id("b") := [DependencyEdge(Id("c"), Value)],
        Id("c") := [DependencyEdge(Id("a"), Value)]]
  }

  /** a -> b -> c -> a, all type-only edges. */
  function TypeOnlyRing(): Adjacency {
    map[Id("a") := [DependencyEdge(Id("b"), TypeOnly)],
        Id("b") := [DependencyEdge(Id("c"), TypeOnly)],
        Id("c") := [DependencyEdge(Id("a"), TypeOnly)]]
  }

  /** c; b -> c; a -> b, all Value edges. */
  function ValueChain(): Adjacency {
    map[Id("c") := [],
        Id("b") := [DependencyEdge(Id("c"), Value)],
        Id("a") := [DependencyEdge(Id("b"), Value)]]
  }

  /** The only cycle a self-dependency can report is the module twice. */
  lemma SelfDependencyCycle(c: seq<ModuleId>)
    requires IsValueCycle(SelfLoop(), c)
    ensures c == [Id("a"), Id("a")]
  {
    assert ValueEdge(SelfLoop(), c[0], c[1]);
    assert c[0] == Id("a") && c[1] == Id("a");
    DistinctBound(c[..|c| - 1], {Id("a")});
  }

  /** Any cycle reported for the three-module Value ring goes once round all three modules. */
  lemma ValueRingCycle(c: seq<ModuleId>)
    requires IsValueCycle(ValueRing(), c)
    ensures |c| == 4
    ensures Id("a") in c && Id("b") in c && Id("c") in c
  {
    var g := ValueRing();
    var a, b, d := Id("a"), Id("b"), Id("c");
    assert ValueEdge(g, c[0], c[1]);
    assert c[|c| - 1] == c[0];
    assert |c| != 2;
    assert ValueEdge(g, c[1], c[2]);
    assert |c| != 3;
    assert ValueEdge(g, c[2], c[3]);
    assert c[0] in {a, b, d} && c[1] in {a, b, d} && c[2] in {a, b, d};
    assert c[0] != c[1] && c[1] != c[2] && c[0] != c[2];
    forall k | 0 <= k < |c| - 1
      ensures c[k] in {a, b, d}
    {
      assert ValueEdge(g, c[k], c[k + 1]);
    }
    DistinctBound(c[..|c| - 1], {a, b, d});
  }

  /** A ring of type-only edges contains no Value cycle. */
  lemma TypeOnlyRingIsAcyclic()
    ensures !HasValueCycle(TypeOnlyRing())
  {
    forall c
      ensures !IsValueCycle(TypeOnlyRing(), c)
    {
      if |c| >= 2 {
        assert !ValueEdge(TypeOnlyRing(), c[0], c[1]);
      }
    }
  }

  /** The chain c <- b <- a has no Value cycle: [c, b, a] orders it. */
  lemma ValueChainIsAcyclic()
    ensures !HasValueCycle(ValueChain())
  {
    OrderedGraphIsAcyclic(ValueChain(), [Id("c"), Id("b"), Id("a")]);
  }

  /** a -> b, a -> d (Value) and b -> d, c -> d (Value): the diamond. */
  function Diamond(): Adjacency {
    map[Id("d") := [],
        Id("b") := [DependencyEdge(Id("d"), Value)],
        Id("c") := [DependencyEdge(Id("d"), Value)],
        Id("a") := [DependencyEdge(Id("b"), Value), DependencyEdge(Id("c"), Value)]]
  }

  lemma DiamondIsAcyclic()
    ensures !HasValueCycle(Diamond())
  {
    OrderedGraphIsAcyclic(Diamond(), [Id("d"), Id("b"), Id("c"), Id("a")]);
  }

  /** In any topological order of the diamond, d precedes b and c, and both precede a. */
  lemma DiamondOrder(order: seq<ModuleId>)
    requires Id("a") in order && Id("b") in order && Id("c") in order && Id("d") in order
    requires IsTopologicalOrder(Diamond(), order)
    ensures FirstIndex(order, Id("d")) < FirstIndex(order, Id("b")) < FirstIndex(order, Id("a"))
    ensures FirstIndex(order, Id("d")) < FirstIndex(order, Id("c")) < FirstIndex(order, Id("a"))
  {
    var g := Diamond();
    var a, b, c, d := Id("a"), Id("b"), Id("c"), Id("d");
    var ia, ib, ic, id := FirstIndex(order, a), FirstIndex(order, b), FirstIndex(order, c), FirstIndex(order, d);
    assert ValueEdge(g, order[ib], order[id]) && ValueEdge(g, order[ic], order[id]);
    assert ValueEdge(g, order[ia], order[ib]) && ValueEdge(g, order[ia], order[ic]);
  }

  /** Three modules without dependencies. */
  function Isolated(): Adjacency {
    map[Id("a") := [], Id("b") := [], Id("c") := []]
  }

  lemma IsolatedIsAcyclic()
    ensures !HasValueCycle(Isolated())
  {
    OrderedGraphIsAcyclic(Isolated(), [Id("a"), Id("b"), Id("c")]);
  }

  /** An order of three distinct modules lists exactly those three. */
  lemma PermutationOfThree(order: seq<ModuleId>, a: ModuleId, b: ModuleId, c: ModuleId)
    requires IsPermutationOf(order, {a, b, c})
    requires a != b && b != c && a != c
    ensures |order| == 3 && a in order && b in order && c in order
  {
    DistinctCardinality(order);
    assert (set x | x in order) == {a, b, c};
  }

  /** a -> b (Value), a -> c and b -> c (type-only), c a leaf. */
  function MixedKinds(): Adjacency {
    map[Id("c") := [],
        Id("b") := [DependencyEdge(Id("c"), TypeOnly)],
        Id("a") := [DependencyEdge(Id("b"), Value), DependencyEdge(Id("c"), TypeOnly)]]
  }

  /** Type-only edges impose no order: c may come first or last. */
  lemma MixedKindsOrders()
    ensures !HasValueCycle(MixedKinds())
    ensures IsTopologicalOrder(MixedKinds(), [Id("b"), Id("a"), Id("c")])
    ensures IsTopologicalOrder(MixedKinds(), [Id("c"), Id("b"), Id("a")])
  {
    OrderedGraphIsAcyclic(MixedKinds(), [Id("b"), Id("a"), Id("c")]);
  }

  /** The only topological order of the chain c <- b <- a is [c, b, a]. */
  lemma ValueChainOrder(order: seq<ModuleId>)
    requires IsPermutationOf(order, {Id("a"), Id("b"), Id("c")})
    requires IsTopologicalOrder(ValueChain(), order)
    ensures order == [Id("c"), Id("b"), Id("a")]
  {
    var g := ValueChain();
    var a, b, c := Id("a"), Id("b"), Id("c");
    DistinctCardinality(order);
    assert (set x | x in order) == {a, b, c};
    assert |order| == 3;
    var ia, ib, ic := FirstIndex(order, a), FirstIndex(order, b), FirstIndex(order, c);
    assert ValueEdge(g, order[ia], order[ib]);
    assert ValueEdge(g, order[ib], order[ic]);
    assert ic == 0 && ib == 1 && ia == 2;
  }

  method TestSimpleTopologicalSort() {
    var g := new DependencyGraph();
    var a, b, c := Id("a"), Id("b"), Id("c");
    g.AddModule(c, []);
    g.AddModule(b, [(c, Value)]);
    g.AddModule(a, [(b, Value)]);
    assert ToEdges([]) == [];
    assert ToEdges([(c, Value)]) == [DependencyEdge(c, Value)];
    assert ToEdges([(b, Value)]) == [DependencyEdge(b, Value)];
    assert g.nodes == {a, b, c};
    assert g.edges == ValueChain();
    ValueChainIsAcyclic();
    var r := g.TopologicalSort();
    assert r.Success?;
    ValueChainOrder(r.value);
    assert r.value == [c, b, a];
  }

  method TestSelfDependency() {
    var g := new DependencyGraph();
    var a := Id("a");
    g.AddModule(a, [(a, Value)]);
    assert ToEdges([(a, Value)]) == [DependencyEdge(a, Value)];
    assert g.edges == SelfLoop();
    var r := g.TopologicalSort();
    assert IsValueCycle(SelfLoop(), [a, a]);
    assert r.Failure?;
    SelfDependencyCycle(r.error.cycle);
    assert r.error.cycle == [a, a];
  }

  method TestCircularDependencyDetected() {
    var g := new DependencyGraph();
    var a, b, c := Id("a"), Id("b"), Id("c");
    g.AddModule(a, [(b, Value)]);
    g.AddModule(b, [(c, Value)]);
    g.AddModule(c, [(a, Value)]);
    assert ToEdges([(b, Value)]) == [DependencyEdge(b, Value)];
    assert ToEdges([(c, Value)]) == [DependencyEdge(c, Value)];
    assert ToEdges([(a, Value)]) == [DependencyEdge(a, Value)];
    assert g.edges == ValueRing();
    var r := g.TopologicalSort();
    assert IsValueCycle(ValueRing(), [a, b, c, a]);
    assert r.Failure?;
    ValueRingCycle(r.error.cycle);
    assert |r.error.cycle| >= 3 && a in r.error.cycle && b in r.error.cycle && c in r.error.cycle;
  }

  method TestNoDependencies() {
    var g := new DependencyGraph();
    var a, b, c := Id("a"), Id("b"), Id("c");
    g.AddModule(a, []);
    g.AddModule(b, []);
    g.AddModule(c, []);
    assert ToEdges([]) == [];
    assert g.nodes == {a, b, c};
    assert g.edges == Isolated();
    IsolatedIsAcyclic();
    var r := g.TopologicalSort();
    assert r.Success?;
    PermutationOfThree(r.value, a, b, c);
  }

  method TestTypeOnlyCycleAllowed() {
    var g := new DependencyGraph();
    var a, b, c := Id("a"), Id("b"), Id("c");
    g.AddModule(a, [(b, TypeOnly)]);
    g.AddModule(b, [(c, TypeOnly)]);
    g.AddModule(c, [(a, TypeOnly)]);
    assert ToEdges([(b, TypeOnly)]) == [DependencyEdge(b, TypeOnly)];
    assert ToEdges([(c, TypeOnly)]) == [DependencyEdge(c, TypeOnly)];
    assert ToEdges([(a, TypeOnly)]) == [DependencyEdge(a, TypeOnly)];
    assert g.edges == TypeOnlyRing();
    TypeOnlyRingIsAcyclic();
    var r := g.TopologicalSort();
    assert r.Success?;
  }

  /** Registers the diamond: d first, then b and c on d, then a on b and c. */
  method BuildDiamond() returns (g: DependencyGraph)
    ensures g.Valid() && g.edges == Diamond()
    ensures Id("a") in g.nodes && Id("b") in g.nodes && Id("c") in g.nodes && Id("d") in g.nodes
  {
    g := new DependencyGraph();
    var a, b, c, d := Id("a"), Id("b"), Id("c"), Id("d");
    g.AddModule(d, []);
    g.AddModule(b, [(d, Value)]);
    g.AddModule(c, [(d, Value)]);
    g.AddModule(a, [(b, Value), (c, Value)]);
    assert ToEdges([]) == [];
    assert ToEdges([(d, Value)]) == [DependencyEdge(d, Value)];
    assert ToEdges([(b, Value), (c, Value)]) == [DependencyEdge(b, Value), DependencyEdge(c, Value)];
  }

  method TestDiamondDependency() {
    var g := BuildDiamond();
    var a, b, c, d := Id("a"), Id("b"), Id("c"), Id("d");
    DiamondIsAcyclic();
    var r := g.TopologicalSort();
    assert r.Success?;
    var order := r.value;
    DiamondOrder(order);
    assert FirstIndex(order, d) < FirstIndex(order, b) < FirstIndex(order, a);
    assert FirstIndex(order, d) < FirstIndex(order, c) < FirstIndex(order, a);
  }

  method TestTypeDependencyIgnoredInSort() {
    var g := new DependencyGraph();
    var a, b, c := Id("a"), Id("b"), Id("c");
    g.AddModule(c, []);
    g.AddModule(b, [(c, TypeOnly)]);
    g.AddModule(a, [(b, Value), (c, TypeOnly)]);
    assert ToEdges([]) == [];
    assert ToEdges([(c, TypeOnly)]) == [DependencyEdge(c, TypeOnly)];
    assert ToEdges([(b, Value), (c, TypeOnly)]) == [DependencyEdge(b, Value), DependencyEdge(c, TypeOnly)];
    assert g.edges == MixedKinds();
    MixedKindsOrders();
    var r := g.TopologicalSort();
    assert r.Success?;
    var order := r.value;
    var ia, ib := FirstIndex(order, a), FirstIndex(order, b);
    assert ValueEdge(g.edges, order[ia], order[ib]);
    assert ib < ia;
  }

  method TestGetValueAndTypeDependencies() {
    var g := new DependencyGraph();
    var a, b, c, d := Id("a"), Id("b"), Id("c"), Id("d");
    g.AddModule(a, [(b, Value), (c, TypeOnly), (d, Value)]);
    var es := [DependencyEdge(b, Value), DependencyEdge(c, TypeOnly), DependencyEdge(d, Value)];
    assert ToEdges([(b, Value), (c, TypeOnly), (d, Value)]) == es;
    var values := g.GetValueDependencies(a);
    var types := g.GetTypeDependencies(a);
    assert TargetsOfKind(es, Value) == [b, d] by {
      assert es[1..] == [DependencyEdge(c, TypeOnly), DependencyEdge(d, Value)];
      assert es[1..][1..] == [DependencyEdge(d, Value)];
    }
    assert TargetsOfKind(es, TypeOnly) == [c] by {
      assert es[1..] == [DependencyEdge(c, TypeOnly), DependencyEdge(d, Value)];
      assert es[1..][1..] == [DependencyEdge(d, Value)];
      assert es[1..][1..][1..] == [];
      assert TargetsOfKind(es[1..][1..], TypeOnly) == [];
      assert TargetsOfKind(es[1..], TypeOnly) == [c];
    }
    assert values == [b, d] && types == [c];
    assert g.GetValueDependencies(Id("unregistered")) == [];
  }
}
