# luanext-typechecker core, modelled in Dafny

This project models the module-ordering and caching core of the LuaNext type
checker, a checker for a typed dialect of Lua. It covers five parts.

- **The dependency graph** (`dependency_graph.dfy`). Modules are registered
  with their imports, and each import is a runtime (Value) or a type-only
  edge. A depth-first search with three node states (unvisited, visiting,
  visited) orders the modules so that every module follows its runtime
  dependencies. It follows only Value edges. When it meets a module that is
  still being visited, it reports the cycle.
- **The subtype relation cache** (`type_relations.dfy`). A bounded
  least-recently-used map from an ordered pair of type identities to a
  verdict, with a default capacity of 1024. It keeps cumulative hit and miss
  counters and a hit rate.
- **Module identity, module kinds and resolver errors** (`module_errors.dfy`).
  This covers paths as identities, the classification of file extensions,
  and the text of each error message.
- **The export table** (`reexports.dfy`). Named, aliased, type-only and
  wildcard re-exports, and local exports, are bound name by name. A name
  bound in both the value and the type mode is a duplicate export.
- **Type utilities** (`type_utilities.dfy`). These are literal widening, the
  metamethod name of each overloadable operator, the boolean test and the
  names of the primitive types.

Shared helpers are in `wrappers.dfy` (`Option`, `Result`) and
`sequences.dfy` (duplicate-free sequences, first index, removal, a pigeonhole
bound). `dependency_scenarios.dfy` and `reexport_scenarios.dfy` restate the
repository's tests, and each result there is derived from the contracts.

Three results stand out:
- `TopologicalSort` succeeds exactly when the graph has no cycle of Value
  edges. On success it returns a permutation of all known modules in which
  every module comes after its Value dependencies. On failure it returns a
  genuine Value cycle.
- `CheckExports` fails exactly when some external name is bound in two
  modes. On success its table binds exactly the exported names, each in the
  one mode that all its bindings share.
- `Insert` and `Get` keep the cache within its capacity and keep the
  recency order consistent with the stored keys. A hit in `Get` and every
  `Insert` make the pair the most recently used while the other keys keep
  their relative order (`TouchKeepsOrder`). An `Insert` of a new pair into a
  full cache evicts only the entry at the front, the least recently used.

Where the source leaves something open, the model resolves it as follows.
- **Hash-set order.** The graph's node set is walked in hash order, so the
  sort picks each next start module nondeterministically. The contract holds
  for every choice.
- **Cache keys.** Types are keyed by memory address in the source. Here a
  type's identity is a natural number (`TypeId`).
- **Hit rate.** The source computes a floating-point hit rate. Here it is an
  exact fraction `Ratio(num, den)`.
- **No lookups.** `hit_rate` returns 0 when there has been no lookup
  (`src/type_relations.rs:69-76`). Higher-level descriptions of the checker
  give 1.0 for this case. The model follows the code.
- **Extensions.** The extension table is not a bijection. `extension()` of
  a declaration file is `"d.luax"`, but `from_extension` recognises only
  `".d.luax"` and maps `"d.luax"` to nothing
  (`src/module_resolver/error_tests.rs:137-141, 166-169`). Descriptions that
  call the two mappings inverse are wrong for declarations.
  `ExtensionRoundTrip` states exactly which kinds round-trip. The tests pin
  this behaviour, so it is not reported as a source bug.
- **Re-export tables.** The tests name modules whose export tables are not
  given. The scenarios use small source tables of their own, listed in
  `ReexportScenarios.Sources`.

## Model

| member | source | states |
|---|---|---|
| DependencyGraphs.DependencyGraph.constructor | src/module_resolver/dependency_graph.rs:34-40 | a new graph has no modules and no edges |
| DependencyGraphs.DependencyGraph.AddModule | src/module_resolver/dependency_graph.rs:41-57 | the module and every target become nodes, the module's edge list is replaced by the given dependencies in order, no other module's edges change, and the graph stays well formed |
| DependencyGraphs.DependencyGraph.Contains | src/module_resolver/dependency_graph.rs:156-160 | every registered module and every edge target is contained |
| DependencyGraphs.DependencyGraph.Modules | src/module_resolver/dependency_graph.rs:161-164 | lists exactly the contained modules |
| DependencyGraphs.DependencyGraph.GetDependencies | src/module_resolver/dependency_graph.rs:123-127 | present exactly for registered modules, and every listed target is a known module |
| DependencyGraphs.DependencyGraph.GetValueDependencies | src/module_resolver/dependency_graph.rs:128-141 | lists exactly the targets of the module's Value edges, none for an unregistered module |
| DependencyGraphs.DependencyGraph.GetTypeDependencies | src/module_resolver/dependency_graph.rs:142-155 | lists exactly the targets of the module's type-only edges, none for an unregistered module |
| DependencyGraphs.DependencyGraph.QueriesPartitionDependencies | src/module_resolver/dependency_graph.rs:128-155 | walking a module's edges in order, each Value edge's target is the next Value dependency and each type-only edge's target the next type dependency (a split the edges determine uniquely), and each target occurs in a query as often as the edge to it of that kind occurs |
| DependencyGraphs.KindsPartitionTargets | src/module_resolver/dependency_graph.rs:128-155 | the Value and the type-only targets merge, in order, into the full target list, with lengths and multisets adding up to the whole; derived from the split by kind |
| DependencyGraphs.KindsSplitTargets | src/module_resolver/dependency_graph.rs:128-155 | filtering by kind sends every Value edge's target to the Value side and every type-only edge's target to the type side, in edge order |
| DependencyGraphs.SplitInterleaves | src/module_resolver/dependency_graph.rs:128-155 | the two sides of a split by kind merge, in order, into the full target list |
| DependencyGraphs.SplitCounts | src/module_resolver/dependency_graph.rs:128-155 | the two sides of a split by kind have as many targets as there are edges, and together the same targets |
| DependencyGraphs.SplitsByKindUnique | src/module_resolver/dependency_graph.rs:128-155 | a list of edges has only one split by kind |
| DependencyGraphs.KindCounts | src/module_resolver/dependency_graph.rs:128-155 | a target occurs among the targets of one kind exactly as often as the edge to it of that kind occurs |
| DependencyGraphs.DependencyGraph.Visit | src/module_resolver/dependency_graph.rs:80-121 | a module met while still being visited yields a CircularDependency error whose cycle is the path suffix from that module plus the module again, a real Value cycle; otherwise the module ends visited, after all its Value dependencies, with the search invariants kept |
| DependencyGraphs.DependencyGraph.CycleFromPath | src/module_resolver/dependency_graph.rs:91-97 | the path suffix from the module's first position, closed by the module, is a Value cycle |
| DependencyGraphs.DependencyGraph.Finish | src/module_resolver/dependency_graph.rs:113-118 | appending a module whose Value dependencies are all finished keeps the order topological and closed |
| DependencyGraphs.DependencyGraph.TopologicalSort | src/module_resolver/dependency_graph.rs:58-79 | succeeds exactly when there is no Value cycle; the result lists every module once, dependencies first; a failure carries a Value cycle |
| DependencyGraphs.OrderedGraphIsAcyclic | src/module_resolver/dependency_graph.rs:58-79 | a graph that has an order respecting its Value edges has no Value cycle |
| DependencyGraphs.OrderExcludesCycle | src/module_resolver/dependency_graph.rs:58-79 | along a walk of Value edges positions in a topological order strictly decrease, so the walk cannot return to its start |
| DependencyScenarios.ValueChainOrder | src/module_resolver/dependency_graph.rs:182-200 | for c <- b <- a the only possible result is [c, b, a] |
| DependencyScenarios.ValueChainIsAcyclic | src/module_resolver/dependency_graph.rs:182-200 | the chain has no Value cycle, so the sort succeeds |
| DependencyScenarios.DiamondIsAcyclic | src/module_resolver/dependency_graph.rs:202-230 | the diamond has no Value cycle, so it sorts |
| DependencyScenarios.DiamondOrder | src/module_resolver/dependency_graph.rs:202-230 | in every topological order of the diamond, d comes before b and c, and both come before a |
| DependencyScenarios.IsolatedIsAcyclic | src/module_resolver/dependency_graph.rs:273-285 | three modules without dependencies have no Value cycle, so they sort |
| DependencyScenarios.PermutationOfThree | src/module_resolver/dependency_graph.rs:273-285 | a result that lists three distinct modules each once has length three |
| DependencyScenarios.ValueRingCycle | src/module_resolver/dependency_graph.rs:232-254 | any reported cycle of the three-module Value ring has four entries and names a, b and c |
| DependencyScenarios.SelfDependencyCycle | src/module_resolver/dependency_graph.rs:255-271 | the only cycle of a self-dependency is [a, a] |
| DependencyScenarios.TypeOnlyRingIsAcyclic | src/module_resolver/dependency_graph.rs:287-299 | a ring of type-only edges has no Value cycle, so it sorts |
| DependencyScenarios.MixedKindsOrders | src/module_resolver/dependency_graph.rs:315-340 | type-only edges impose no order: the graph sorts, and c may come first or last |
| TypeRelations.TypeRelationCache.constructor | src/type_relations.rs:19-22 | an empty cache of capacity 1024 with both counters at zero |
| TypeRelations.TypeRelationCache.WithCapacity | src/type_relations.rs:24-31 | an empty cache of the given positive capacity with both counters at zero |
| TypeRelations.TypeRelationCache.Get | src/type_relations.rs:33-46 | a stored pair is a hit: its verdict is returned, it becomes most recently used and the hit count rises by one; an absent pair is a miss: None, and the miss count rises by one; the stored entries never change, and every lookup adds exactly one to hits plus misses |
| TypeRelations.TypeRelationCache.Insert | src/type_relations.rs:47-51 | the pair is stored with the verdict as most recently used; an existing entry is overwritten; a new pair in a full cache evicts exactly the least recently used entry; the capacity bound and the counters are kept |
| TypeRelations.TypeRelationCache.Clear | src/type_relations.rs:53-56 | removes every entry and keeps both counters |
| TypeRelations.TypeRelationCache.HitRate | src/type_relations.rs:68-76 | hits divided by all lookups, a fraction between 0 and 1, and 0 before any lookup |
| TypeRelations.TypeRelationCache.HitCount | src/type_relations.rs:58-61 | the hit count is the count that, with the misses, gives the hit rate |
| TypeRelations.TypeRelationCache.MissCount | src/type_relations.rs:63-66 | the miss count is the count that, with the hits, gives the hit rate |
| TypeRelations.HitRatio | src/type_relations.rs:68-76 | the fraction has a positive denominator, lies in [0, 1], equals hits / (hits + misses), and is 0 when there were no lookups |
| TypeRelations.Touch | src/type_relations.rs:33-37 | moving a key to the most recent end keeps the other keys, in their order, and stays duplicate-free |
| TypeRelations.TouchKeepsOrder | src/type_relations.rs:33-51 | after a key is used, any two other keys are in the same relative order as before and both come before it, so the front of the list stays the least recently used key |
| Sequences.Without | src/type_relations.rs:33-51 | removing a key leaves a subsequence holding every other element in its order, without duplicates when the list had none |
| Sequences.SubsequenceOrder | src/type_relations.rs:33-51 | a subsequence of a list without duplicates keeps the relative order of its elements |
| TypeRelations.EvictOldest | src/type_relations.rs:47-51 | dropping the least recently used key from the entries and the recency list keeps them describing the same keys, one entry fewer |
| TypeRelations.StoreKey | src/type_relations.rs:47-51 | storing a key and moving it to the most recent end keeps entries and recency list in step, one entry more exactly when the key is new |
| TypeRelations.OneHitTwoMisses | src/type_relations.rs:97-124 | one hit and two misses give a hit rate of one third |
| ModuleErrors.ModuleId.Path | src/module_resolver/error_tests.rs:4-9 | the path the identifier was built from |
| ModuleErrors.ModuleId.AsStr | src/module_resolver/error_tests.rs:11-16 | the identifier's path as text |
| ModuleErrors.ModuleId.ToString | src/module_resolver/error_tests.rs:18-24 | the display text of an identifier is its path |
| ModuleErrors.NewModuleId | src/module_resolver/error_tests.rs:4-31 | path, text and display of a new identifier all give back the path |
| ModuleErrors.ModuleIdEquality | src/module_resolver/error_tests.rs:191-215 | two identifiers are equal exactly when their paths are |
| ModuleErrors.ModuleIdsDeduplicate | src/module_resolver/error_tests.rs:199-215 | two identifiers of one path and one of another make a set of two |
| ModuleErrors.ModuleKind.Extension | src/module_resolver/error_tests.rs:165-170 | each kind has a non-empty extension |
| ModuleErrors.ExtensionTable | src/module_resolver/error_tests.rs:165-170 | the typed kind is written "luax", the declaration kind "d.luax" and the plain kind "lua" |
| ModuleErrors.FromExtension | src/module_resolver/error_tests.rs:125-163 | "luax" is the only typed extension, "lua" the only plain one, ".d.luax" the only declaration one; everything else is not a module |
| ModuleErrors.FromExtensionTable | src/module_resolver/error_tests.rs:125-163 | the classification of every extension the tests name |
| ModuleErrors.ExtensionRoundTrip | src/module_resolver/error_tests.rs:125-170 | classifying a kind's extension gives the kind back exactly for the typed and plain kinds; the declaration kind's extension "d.luax" is not recognised |
| ModuleErrors.NotFoundMessage | src/module_resolver/error_tests.rs:33-45 | the not-found text names the module, has a searched-paths heading and lists every path tried |
| ModuleErrors.CircularDependencyMessage | src/module_resolver/error_tests.rs:47-66 | the cycle text has the fixed heading, names every module of the cycle, and mentions "cycle" and "import type" |
| ModuleErrors.CycleHintWords | src/module_resolver/error_tests.rs:47-66 | the hint of a cycle report contains "cycle" and "import type" |
| ModuleErrors.InvalidPathMessage | src/module_resolver/error_tests.rs:68-78 | the invalid-path text quotes the path followed by the reason |
| ModuleErrors.IoErrorMessage | src/module_resolver/error_tests.rs:80-89 | the I/O text quotes the file followed by the underlying message |
| ModuleErrors.NotCompiledMessage | src/module_resolver/error_tests.rs:91-98 | the not-compiled text names the module |
| ModuleErrors.ExportNotFoundMessage | src/module_resolver/error_tests.rs:100-110 | the missing-export text names the module and the export |
| ModuleErrors.MessageHeadings | src/module_resolver/error_tests.rs:33-110 | the Display text of each kind of resolver error opens with that kind's heading: the missing module, the cycle heading, the invalid path, the unreadable file, the uncompiled module, or the module and the missing export |
| Reexports.Bind | tests/reexport_tests.rs:201-216 | binding a name already bound in the other mode is a duplicate export of that name; otherwise the name ends up bound in the given mode and no other entry changes |
| Reexports.CheckExports | tests/reexport_tests.rs:201-216 | fails exactly when some name is bound in both modes, reporting such a name; on success the table holds exactly the exported names, each bound by one of its declarations and in the mode all its bindings share |
| Reexports.BindEach | tests/reexport_tests.rs:201-216 | binding a list of pairs succeeds exactly when all pairs of one name agree on the mode, and then yields their table |
| Reexports.BindDeclaration | tests/reexport_tests.rs:201-216 | binding one more declaration either keeps the table that of all bindings so far, with no conflict among them, or reports a name bound in both modes by the declarations |
| Reexports.BindKeepsTable | tests/reexport_tests.rs:201-216 | a binding that does not conflict extends the table to one holding every pair bound so far |
| Reexports.CollectedTable | tests/reexport_tests.rs:201-216 | once every declaration is bound without conflict, the declarations have no conflict and the table is their export table |
| Reexports.DeclarationBindings | tests/reexport_tests.rs:20-299 | lists exactly the bindings a declaration makes: each specifier under its alias, or every name of a wildcard's source |
| Reexports.EnumerateNames | tests/reexport_tests.rs:242-262 | enumerates exactly the names of a source table, in an arbitrary order |
| Reexports.SpecifierBindings | tests/reexport_tests.rs:20-57 | one binding per specifier, under its external name, in its declaration's mode |
| Reexports.NameSetComplete | tests/reexport_tests.rs:20-299 | a declaration binds exactly the names of its name set |
| Reexports.DeclarationConsistent | tests/reexport_tests.rs:20-299 | one declaration never binds a name in two modes |
| Reexports.DisjointDeclarationsAgree | tests/reexport_tests.rs:93-104 | declarations binding disjoint names never conflict |
| ReexportScenarios.NamedReexportsAccepted | tests/reexport_tests.rs:20-57 | single, aliased, multiple and multiply aliased re-exports are accepted |
| ReexportScenarios.TypeOnlyReexportsAccepted | tests/reexport_tests.rs:72-91 | type-only re-exports, plain or aliased, are accepted |
| ReexportScenarios.LocalExportsAccepted | tests/reexport_tests.rs:106-174 | exporting an imported name, a local value, a function or an interface as a type is accepted |
| ReexportScenarios.MixedReexportsAccepted | tests/reexport_tests.rs:59-104 | a local export beside a re-export, and re-exports from two sources, are accepted |
| ReexportScenarios.ValueAndTypeOfDifferentNamesAccepted | tests/reexport_tests.rs:188-199 | a value and a type-only re-export of different names are accepted |
| ReexportScenarios.ValueThenTypeOnlyRejected | tests/reexport_tests.rs:201-216 | re-exporting foo as a value and then type-only is a conflict on foo |
| ReexportScenarios.WildcardsAccepted | tests/reexport_tests.rs:242-299 | wildcards alone, type-only, beside an interface, beside another wildcard and beside named re-exports are accepted |
| ReexportScenarios.TypeOnlyWildcardForwardsTypes | tests/reexport_tests.rs:251-262 | `export type *` forwards every name of its source in type mode |
| TypeUtilities.WidenType | src/helpers/type_utilities_tests.rs:31-89 | the result is always primitive; primitives are unchanged; a literal widens to a primitive type its value belongs to |
| TypeUtilities.WidenLiterals | src/helpers/type_utilities_tests.rs:31-82 | number and integer literals widen to number, string to string, boolean to boolean, nil to nil |
| TypeUtilities.WidenTypeIsTheOnlyPrimitive | src/helpers/type_utilities_tests.rs:31-82 | a literal belongs to a primitive type exactly when it widens to it |
| TypeUtilities.WidenTypeIdempotent | src/helpers/type_utilities_tests.rs:84-89 | widening twice is widening once |
| TypeUtilities.IsBooleanType | src/helpers/type_utilities_tests.rs:16-29 | true exactly for the primitive boolean type |
| TypeUtilities.WidenedBooleans | src/helpers/type_utilities_tests.rs:16-72 | a literal widens to a boolean type exactly when it is a boolean literal |
| TypeUtilities.PrimitiveName | src/helpers/type_utilities_tests.rs:151-163 | the text of every primitive type is non-empty |
| TypeUtilities.PrimitiveNamesDistinct | src/helpers/type_utilities_tests.rs:151-163 | distinct primitive types have distinct texts |
| TypeUtilities.OperatorKindName | src/helpers/type_utilities_tests.rs:91-149 | every metamethod name starts with `__` and has more after it |
| TypeUtilities.OperatorKindNameTable | src/helpers/type_utilities_tests.rs:121-149 | the metamethod name of each of the 24 operators |
| TypeUtilities.MetamethodRoundTrip | src/helpers/type_utilities_tests.rs:121-149 | reading back an operator's metamethod name gives the operator |
| TypeUtilities.MetamethodNamesOnly | src/helpers/type_utilities_tests.rs:121-149 | a name read as an operator is exactly that operator's metamethod name |
| TypeUtilities.OperatorKindNameInjective | src/helpers/type_utilities_tests.rs:121-149 | no two operators share a metamethod name |

## Left out

- `src/module_resolver/error.rs` is not part of this model. The message
  templates of `ModuleErrors.Message` are built so that they contain the
  fragments the tests require. Their remaining wording, such as the cycle
  hint and the list layout, is this model's own.
- `ModuleErrors` does not model `Error::source` (always none), `Clone`,
  `Copy`, hashing or the conversion from a path buffer. Equality of paths
  stands for all of them.
- `TypeRelations.TypeRelationCache.Get`: the 64-bit hit and miss counters
  are unbounded naturals, so their overflow is not modelled.
- `TypeRelations.TypeRelationCache.HitRate` is an exact fraction, not a
  64-bit float. The test's tolerance comparison with 0.333 becomes exact
  equality with 1/3.
- `TypeRelations.TypeRelationCache.WithCapacity`: the source turns a zero
  capacity into a panic, and the model rules it out by precondition.
- `TypeRelations`: keys are type identities, not addresses, so aliasing of
  types by address is not modelled.
- `DependencyGraphs.DependencyGraph.Modules` returns a set rather than an
  iterator, and `GetDependencies`, `GetValueDependencies` and
  `GetTypeDependencies` return sequences rather than borrowed or freshly
  allocated vectors.
- `Reexports.CheckExports` models only the export-name bookkeeping of
  `check_program`.
  - Parsing, scope resolution of locally exported names, and the type
    information carried by a re-export are not modelled.
  - The inline-annotation re-export `export { foo }: number from ...` is
    not modelled. Its test accepts either outcome.
  - Re-exporting a name again in the same mode is accepted, and the first
    binding is kept.
  - A wildcard whose source table is unknown forwards nothing.
- `TypeUtilities.WidenType`, `IsBooleanType` and `PrimitiveName` cover only
  primitive and literal type kinds. Unions, tables, functions and generics
  are not modelled, and neither is the source span of a type.
  - `PrimitiveName` renders only primitive types. Rendering of literal and
    compound types is not modelled.
  - `IsBooleanType` is true only for the primitive boolean type. The tests
    decide nothing about literal booleans.
- The dependency-injection container, metrics collection and the standard
  library loader are outside the core and are not modelled.
