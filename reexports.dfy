/**
 * A module's export table, filled declaration by declaration from its
 * export declarations: named exports (local or forwarded from another
 * module, each optionally aliased, value or type-only), wildcard re-exports
 * and exported local declarations. Binding one external name in both the
 * value and the type mode is the one conflict.
 */
module Reexports {

  import opened Wrappers

  datatype ExportMode = ValueMode | TypeMode

  /** Where an exported name leads: a declaration of this module, or a name exported by another module. */
  datatype Origin = Local(name: string) | Forward(source: string, name: string)

  datatype Binding = Binding(mode: ExportMode, origin: Origin)

  /** `name` or `name as alias`. */
  datatype Specifier = Specifier(name: string, alias: Option<string>)

  datatype ExportDecl =
    /** `export [type] { specifiers } [from source]` */
    | Named(specifiers: seq<Specifier>, source: Option<string>, typeOnly: bool)
    /** `export [type] * from source` */
    | Wildcard(from: string, allTypes: bool)
    /** `export const x = ...`, `export function f ...`, `export interface I ...` */
    | Declared(name: string, mode: ExportMode)

  datatype ExportError = DuplicateExport(name: string)

  /** The resolved export tables of the modules re-exported from, by module specifier. */
  type SourceTables = map<string, map<string, ExportMode>>

  type Table = map<string, Binding>

  /** The name a specifier is exported under: its alias, else its own name. */
  function ExternalName(s: Specifier): string {
    match s.alias
    case Some(a) => a
    case None => s.name
  }

  function ModeOf(typeOnly: bool): ExportMode {
    if typeOnly then TypeMode else ValueMode
  }

  /** The binding a named specifier creates. */
  function SpecifierBinding(s: Specifier, source: Option<string>, typeOnly: bool): Binding {
    Binding(ModeOf(typeOnly), if source.Some? then Forward(source.value, s.name) else Local(s.name))
  }

  /**
   * Declaration `d` binds external name `n` to `b`. A wildcard forwards
   * every name of its source's table, in that name's own mode, or in type
   * mode for `export type *`; a source whose table is not known forwards
   * nothing.
   */
  ghost predicate Produces(d: ExportDecl, sources: SourceTables, n: string, b: Binding) {
    match d
    case Named(specs, source, typeOnly) =>
      exists k :: 0 <= k < |specs| && ExternalName(specs[k]) == n && b == SpecifierBinding(specs[k], source, typeOnly)
    case Wildcard(source, typeOnly) =>
      && source in sources && n in sources[source]
      && b == Binding(if typeOnly then TypeMode else sources[source][n], Forward(source, n))
    case Declared(name, mode) =>
      n == name && b == Binding(mode, Local(name))
  }

  /** Two declarations (possibly the same one) bind `n` in different modes. */
  ghost predicate ConflictOn(decls: seq<ExportDecl>, sources: SourceTables, n: string) {
    exists i, j, b1, b2 ::
      && 0 <= i < |decls| && 0 <= j < |decls|
      && Produces(decls[i], sources, n, b1) && Produces(decls[j], sources, n, b2)
      && b1.mode != b2.mode
  }

  ghost predicate HasConflict(decls: seq<ExportDecl>, sources: SourceTables) {
    exists n :: ConflictOn(decls, sources, n)
  }

  /** All pairs binding the same name agree on its mode. */
  ghost predicate Consistent(pairs: seq<(string, Binding)>) {
    forall k, l :: 0 <= k < |pairs| && 0 <= l < |pairs| && pairs[k].0 == pairs[l].0 ==> pairs[k].1.mode == pairs[l].1.mode
  }

  /**
   * `table` is the result of binding `pairs` in order: each name bound by
   * the pairs is in the table, in the mode of every pair that binds it, and
   * each entry is one of those pairs.
   */
  ghost predicate TableOf(table: Table, pairs: seq<(string, Binding)>) {
    && (forall n :: n in table ==> exists k :: 0 <= k < |pairs| && pairs[k] == (n, table[n]))
    && (forall k :: 0 <= k < |pairs| ==> pairs[k].0 in table && table[pairs[k].0].mode == pairs[k].1.mode)
  }

  /** The external names a declaration binds. */
  function NameSet(d: ExportDecl, sources: SourceTables): set<string> {
    match d
    case Named(specs, _, _) => set k | 0 <= k < |specs| :: ExternalName(specs[k])
    case Wildcard(source, _) => if source in sources then sources[source].Keys else {}
    case Declared(name, _) => {name}
  }

  /** A declaration binds exactly the names of its name set. */
  lemma NameSetComplete(d: ExportDecl, sources: SourceTables, n: string)
    ensures n in NameSet(d, sources) <==> exists b :: Produces(d, sources, n, b)
  {
    match d
    case Named(specs, source, typeOnly) =>
      if n in NameSet(d, sources) {
        var k :| 0 <= k < |specs| && ExternalName(specs[k]) == n;
        assert Produces(d, sources, n, SpecifierBinding(specs[k], source, typeOnly));
      }
    case Wildcard(source, typeOnly) =>
      if n in NameSet(d, sources) {
        assert Produces(d, sources, n, Binding(if typeOnly then TypeMode else sources[source][n], Forward(source, n)));
      }
    case Declared(name, mode) =>
      if n in NameSet(d, sources) {
        assert Produces(d, sources, n, Binding(mode, Local(name)));
      }
  }

  /** A single declaration never binds one name in two modes. */
  lemma DeclarationConsistent(d: ExportDecl, sources: SourceTables, n: string, b1: Binding, b2: Binding)
    requires Produces(d, sources, n, b1) && Produces(d, sources, n, b2)
    ensures b1.mode == b2.mode
  {
  }

  /** Declarations whose name sets are pairwise disjoint never conflict. */
  lemma DisjointDeclarationsAgree(decls: seq<ExportDecl>, sources: SourceTables)
    requires forall i, j :: 0 <= i < j < |decls| ==> NameSet(decls[i], sources) !! NameSet(decls[j], sources)
    ensures !HasConflict(decls, sources)
  {
    forall n, i, j, b1, b2 |
      && 0 <= i < |decls| && 0 <= j < |decls|
      && Produces(decls[i], sources, n, b1) && Produces(decls[j], sources, n, b2)
      ensures b1.mode == b2.mode
    {
      NameSetComplete(decls[i], sources, n);
      NameSetComplete(decls[j], sources, n);
      assert i == j by {
        assert n in NameSet(decls[i], sources) && n in NameSet(decls[j], sources);
      }
      DeclarationConsistent(decls[i], sources, n, b1, b2);
    }
  }

  /**
   * Binds one external name. Binding a name already bound in the other
   * mode is a duplicate export; binding it again in the same mode keeps the
   * first binding.
   */
  function Bind(table: Table, n: string, b: Binding): (r: Result<Table, ExportError>)
    ensures r.Failure? <==> n in table && table[n].mode != b.mode
    ensures r.Failure? ==> r.error == DuplicateExport(n)
    ensures r.Success? ==> r.value.Keys == table.Keys + {n} && r.value[n].mode == b.mode
    ensures r.Success? ==> forall m :: m in table ==> r.value[m] == table[m]
    ensures r.Success? && n !in table ==> r.value[n] == b
  {
    if n !in table then Success(table[n := b])
    else if table[n].mode != b.mode then Failure(DuplicateExport(n))
    else Success(table)
  }

  /** The bindings of a named declaration, in the order of its specifiers. */
  function SpecifierBindings(specs: seq<Specifier>, source: Option<string>, typeOnly: bool): (r: seq<(string, Binding)>)
    ensures |r| == |specs|
    ensures forall k :: 0 <= k < |specs| ==> r[k] == (ExternalName(specs[k]), SpecifierBinding(specs[k], source, typeOnly))
  {
    if specs == [] then []
    else [(ExternalName(specs[0]), SpecifierBinding(specs[0], source, typeOnly))] + SpecifierBindings(specs[1..], source, typeOnly)
  }

  /** Lists the names of a source's table, in an arbitrary order as a hash map yields them. */
  method EnumerateNames(names: set<string>) returns (r: seq<string>)
    ensures forall n :: n in r <==> n in names
  {
    r := [];
    var remaining := names;
    while remaining != {}
      invariant remaining <= names
      invariant forall n :: n in r <==> n in names - remaining
      decreases remaining
    {
      var n :| n in remaining;
      r := r + [n];
      remaining := remaining - {n};
    }
  }

  /** The bindings a declaration creates, as pairs of external name and binding. */
  method DeclarationBindings(d: ExportDecl, sources: SourceTables) returns (pairs: seq<(string, Binding)>)
    ensures forall n, b :: (n, b) in pairs <==> Produces(d, sources, n, b)
  {
    match d
    case Named(specs, source, typeOnly) =>
      pairs := SpecifierBindings(specs, source, typeOnly);
      forall n, b | Produces(d, sources, n, b)
        ensures (n, b) in pairs
      {
        var k :| 0 <= k < |specs| && ExternalName(specs[k]) == n && b == SpecifierBinding(specs[k], source, typeOnly);
        assert pairs[k] == (n, b);
      }
    case Wildcard(source, typeOnly) =>
      pairs := [];
      if source in sources {
        var table := sources[source];
        var names := EnumerateNames(table.Keys);
        var i := 0;
        while i < |names|
          invariant 0 <= i <= |names|
          invariant |pairs| == i
          invariant forall k :: 0 <= k < i ==> pairs[k] == (names[k], Binding(if typeOnly then TypeMode else table[names[k]], Forward(source, names[k])))
        {
          var n := names[i];
          pairs := pairs + [(n, Binding(if typeOnly then TypeMode else table[n], Forward(source, n)))];
          i := i + 1;
        }
        forall n, b | Produces(d, sources, n, b)
          ensures (n, b) in pairs
        {
          var k :| 0 <= k < |names| && names[k] == n;
          assert pairs[k] == (n, b);
        }
      }
    case Declared(name, mode) =>
      pairs := [(name, Binding(mode, Local(name)))];
  }

  /** Binds `pairs` one after another into `table`, which already holds `done`; stops at the first conflict. */
  method BindEach(table: Table, pairs: seq<(string, Binding)>, ghost done: seq<(string, Binding)>)
    returns (r: Result<Table, ExportError>)
    requires TableOf(table, done)
    ensures r.Success? <==> Consistent(done + pairs)
    ensures r.Success? ==> TableOf(r.value, done + pairs)
    ensures r.Failure? ==> exists k, l ::
      && 0 <= k < |done + pairs| && 0 <= l < |done + pairs|
      && (done + pairs)[k].0 == r.error.name == (done + pairs)[l].0
      && (done + pairs)[k].1.mode != (done + pairs)[l].1.mode
  {
    ghost var all := done + pairs;
    ghost var bound := done;
    var t := table;
    var i := 0;
    while i < |pairs|
      invariant 0 <= i <= |pairs|
      invariant bound == all[..|done| + i]
      invariant TableOf(t, bound)
    {
      var (n, b) := pairs[i];
      assert all[|done| + i] == (n, b);
      var next := Bind(t, n, b);
      if next.Failure? {
        ghost var k := Bound(t, bound, n);
        assert all[k] == bound[k];
        return Failure(next.error);
      }
      BindKeepsTable(t, bound, n, b);
      assert all[..|done| + i + 1] == bound + [(n, b)];
      t := next.value;
      bound := bound + [(n, b)];
      i := i + 1;
    }
    assert bound == all;
    TableOfConsistent(t, all);
    r := Success(t);
  }

  /** The pair of `bound` that a table entry comes from. */
  lemma Bound(t: Table, bound: seq<(string, Binding)>, n: string) returns (k: nat)
    requires TableOf(t, bound) && n in t
    ensures k < |bound| && bound[k] == (n, t[n])
  {
    k :| 0 <= k < |bound| && bound[k] == (n, t[n]);
  }

  /** Binding one more pair without conflict keeps the table that of the pairs so far. */
  lemma BindKeepsTable(t: Table, bound: seq<(string, Binding)>, n: string, b: Binding)
    requires TableOf(t, bound) && Bind(t, n, b).Success?
    ensures TableOf(Bind(t, n, b).value, bound + [(n, b)])
  {
    var t' := Bind(t, n, b).value;
    var after := bound + [(n, b)];
    forall m | m in t'
      ensures exists k :: 0 <= k < |after| && after[k] == (m, t'[m])
    {
      if m in t {
        var k := Bound(t, bound, m);
        assert after[k] == (m, t'[m]);
      } else {
        assert after[|bound|] == (m, t'[m]);
      }
    }
    forall k | 0 <= k < |after|
      ensures after[k].0 in t' && t'[after[k].0].mode == after[k].1.mode
    {
      if k < |bound| {
        assert after[k] == bound[k];
      }
    }
  }

  /** The pairs of a table agree on the mode of each name. */
  lemma TableOfConsistent(t: Table, pairs: seq<(string, Binding)>)
    requires TableOf(t, pairs)
    ensures Consistent(pairs)
  {
  }

  /**
   * Fills the export table of one module from its export declarations, in
   * order. It fails exactly when some external name is bound in both the
   * value and the type mode; otherwise every bound name is in the table, in
   * the one mode all its bindings share, leading to one of them.
   */
  method CheckExports(decls: seq<ExportDecl>, sources: SourceTables) returns (r: Result<Table, ExportError>)
    ensures r.Success? <==> !HasConflict(decls, sources)
    ensures r.Failure? ==> ConflictOn(decls, sources, r.error.name)
    ensures r.Success? ==> ExportTableOf(r.value, decls, sources)
  {
    var table: Table := map[];
    ghost var done: seq<(string, Binding)> := [];
    var i := 0;
    while i < |decls|
      invariant 0 <= i <= |decls|
      invariant TableOf(table, done) && Consistent(done) && Collects(decls, sources, i, done)
    {
      var next;
      ghost var pairs;
      next, pairs := BindDeclaration(table, decls, sources, i, done);
      if next.Failure? {
        return Failure(next.error);
      }
      table := next.value;
      done := done + pairs;
      i := i + 1;
    }
    CollectedTable(decls, sources, table, done);
    r := Success(table);
  }

  /**
   * Binds the names of declaration `i` into `table`, which holds the
   * bindings `done` of the declarations before it; a failure names a
   * conflict of the declarations.
   */
  method BindDeclaration(table: Table, decls: seq<ExportDecl>, sources: SourceTables, i: nat, ghost done: seq<(string, Binding)>)
    returns (r: Result<Table, ExportError>, pairs: seq<(string, Binding)>)
    requires i < |decls|
    requires TableOf(table, done) && Consistent(done) && Collects(decls, sources, i, done)
    ensures r.Success? ==> TableOf(r.value, done + pairs) && Consistent(done + pairs) && Collects(decls, sources, i + 1, done + pairs)
    ensures r.Failure? ==> ConflictOn(decls, sources, r.error.name)
  {
    pairs := DeclarationBindings(decls[i], sources);
    r := BindEach(table, pairs, done);
    if r.Failure? {
      ConflictFound(decls, sources, i, done, pairs, r.error.name);
    } else {
      CollectsNext(decls, sources, i, done, pairs);
    }
  }

  /**
   * `table` is the export table of the declarations: it holds exactly the
   * names they bind, each bound as one of its declarations binds it, and in
   * the mode every binding of it has.
   */
  ghost predicate ExportTableOf(table: Table, decls: seq<ExportDecl>, sources: SourceTables) {
    && (forall n :: n in table <==> exists i, b :: 0 <= i < |decls| && Produces(decls[i], sources, n, b))
    && (forall n :: n in table ==> exists i :: 0 <= i < |decls| && Produces(decls[i], sources, n, table[n]))
    && (forall i, n, b :: 0 <= i < |decls| && Produces(decls[i], sources, n, b) ==> n in table && table[n].mode == b.mode)
  }

  /** `done` holds exactly the bindings of the first `i` declarations. */
  ghost predicate Collects(decls: seq<ExportDecl>, sources: SourceTables, i: nat, done: seq<(string, Binding)>) {
    forall n, b :: (n, b) in done <==> exists j :: 0 <= j < i && j < |decls| && Produces(decls[j], sources, n, b)
  }

  lemma CollectsNext(decls: seq<ExportDecl>, sources: SourceTables, i: nat, done: seq<(string, Binding)>, pairs: seq<(string, Binding)>)
    requires i < |decls|
    requires Collects(decls, sources, i, done)
    requires forall n, b :: (n, b) in pairs <==> Produces(decls[i], sources, n, b)
    ensures Collects(decls, sources, i + 1, done + pairs)
  {
    forall n, b
      ensures (n, b) in done + pairs <==> exists j :: 0 <= j < i + 1 && j < |decls| && Produces(decls[j], sources, n, b)
    {
      if exists j :: 0 <= j < i + 1 && j < |decls| && Produces(decls[j], sources, n, b) {
        var j :| 0 <= j < i + 1 && j < |decls| && Produces(decls[j], sources, n, b);
        if j < i {
          assert (n, b) in done;
        } else {
          assert (n, b) in pairs;
        }
      }
    }
  }

  /** A name that binding declaration `i` finds bound in two modes is a conflict of the declarations. */
  lemma ConflictFound(decls: seq<ExportDecl>, sources: SourceTables, i: nat, done: seq<(string, Binding)>, pairs: seq<(string, Binding)>, n: string)
    requires i < |decls|
    requires Collects(decls, sources, i, done)
    requires forall n, b :: (n, b) in pairs <==> Produces(decls[i], sources, n, b)
    requires exists k, l ::
      && 0 <= k < |done + pairs| && 0 <= l < |done + pairs|
      && (done + pairs)[k].0 == n == (done + pairs)[l].0
      && (done + pairs)[k].1.mode != (done + pairs)[l].1.mode
    ensures ConflictOn(decls, sources, n)
  {
    var all := done + pairs;
    var k, l :| 0 <= k < |all| && 0 <= l < |all| && all[k].0 == n == all[l].0 && all[k].1.mode != all[l].1.mode;
    var jk := Source(decls, sources, i, done, pairs, k);
    var jl := Source(decls, sources, i, done, pairs, l);
    assert Produces(decls[jk], sources, n, all[k].1);
    assert Produces(decls[jl], sources, n, all[l].1);
  }

  /** The declaration a binding of `done + pairs` comes from. */
  lemma Source(decls: seq<ExportDecl>, sources: SourceTables, i: nat, done: seq<(string, Binding)>, pairs: seq<(string, Binding)>, k: nat)
    returns (j: nat)
    requires i < |decls|
    requires Collects(decls, sources, i, done)
    requires forall n, b :: (n, b) in pairs <==> Produces(decls[i], sources, n, b)
    requires k < |done + pairs|
    ensures j < |decls| && Produces(decls[j], sources, (done + pairs)[k].0, (done + pairs)[k].1)
  {
    var (n, b) := (done + pairs)[k];
    if k < |done| {
      assert (n, b) in done;
      j :| 0 <= j < i && j < |decls| && Produces(decls[j], sources, n, b);
    } else {
      assert (n, b) == pairs[k - |done|];
      j := i;
    }
  }

  /** The table of all the declarations' bindings, when they agree, is the export table described by the declarations. */
  lemma CollectedTable(decls: seq<ExportDecl>, sources: SourceTables, table: Table, done: seq<(string, Binding)>)
    requires Collects(decls, sources, |decls|, done)
    requires TableOf(table, done) && Consistent(done)
    ensures !HasConflict(decls, sources)
    ensures ExportTableOf(table, decls, sources)
  {
    forall n | n in table
      ensures exists i :: 0 <= i < |decls| && Produces(decls[i], sources, n, table[n])
    {
      var k :| 0 <= k < |done| && done[k] == (n, table[n]);
      assert (n, table[n]) in done;
    }
    forall i, n, b | 0 <= i < |decls| && Produces(decls[i], sources, n, b)
      ensures n in table && table[n].mode == b.mode
    {
      assert (n, b) in done;
      var k :| 0 <= k < |done| && done[k] == (n, b);
    }
    forall n, i, j, b1, b2 |
      && 0 <= i < |decls| && 0 <= j < |decls|
      && Produces(decls[i], sources, n, b1) && Produces(decls[j], sources, n, b2)
      ensures b1.mode == b2.mode
    {
      assert table[n].mode == b1.mode && table[n].mode == b2.mode;
    }
  }
}
