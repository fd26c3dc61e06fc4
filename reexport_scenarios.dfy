/**
 * The re-export programs of the type checker's tests, written as export
 * declarations over small resolved source tables, with their verdicts
 * derived from the export-table rule.
 */
module ReexportScenarios {

  import opened Wrappers
  import opened Reexports

  function Plain(name: string): Specifier {
    Specifier(name, None)
  }

  function Aliased(name: string, alias: string): Specifier {
    Specifier(name, Some(alias))
  }

  /** `export { names } from source` */
  function From(source: string, specs: seq<Specifier>): ExportDecl {
    Named(specs, Some(source), false)
  }

  /** `export type { names } from source` */
  function TypeFrom(source: string, specs: seq<Specifier>): ExportDecl {
    Named(specs, Some(source), true)
  }

  /** The modules the programs re-export from, with what each exports. */
  function Sources(): SourceTables {
    map[
      "./module" := map["foo" := ValueMode, "bar" := ValueMode, "baz" := ValueMode, "Bar" := TypeMode],
      "./module_a" := map["a" := ValueMode, "A" := TypeMode],
      "./module_b" := map["foo" := ValueMode, "bar" := ValueMode]
    ]
  }

  /** Single, aliased, multiple and multiply aliased named re-exports are accepted. */
  lemma NamedReexportsAccepted()
    ensures !HasConflict([From("./module", [Plain("foo")])], Sources())
    ensures !HasConflict([From("./module", [Aliased("foo", "bar")])], Sources())
    ensures !HasConflict([From("./module", [Plain("foo"), Plain("bar"), Plain("baz")])], Sources())
    ensures !HasConflict([From("./module", [Aliased("foo", "f"), Aliased("bar", "b"), Aliased("baz", "z")])], Sources())
  {
    DisjointDeclarationsAgree([From("./module", [Plain("foo")])], Sources());
    DisjointDeclarationsAgree([From("./module", [Aliased("foo", "bar")])], Sources());
    DisjointDeclarationsAgree([From("./module", [Plain("foo"), Plain("bar"), Plain("baz")])], Sources());
    DisjointDeclarationsAgree([From("./module", [Aliased("foo", "f"), Aliased("bar", "b"), Aliased("baz", "z")])], Sources());
  }

  /** Type-only named re-exports are accepted, with or without an alias. */
  lemma TypeOnlyReexportsAccepted()
    ensures !HasConflict([TypeFrom("./types", [Plain("Foo")])], Sources())
    ensures !HasConflict([TypeFrom("./types", [Aliased("Foo", "Bar")])], Sources())
  {
    DisjointDeclarationsAgree([TypeFrom("./types", [Plain("Foo")])], Sources());
    DisjointDeclarationsAgree([TypeFrom("./types", [Aliased("Foo", "Bar")])], Sources());
  }

  /** Exporting local or imported names, as values or (an interface) as a type, is accepted. */
  lemma LocalExportsAccepted()
    ensures !HasConflict([Named([Plain("foo")], None, false)], Sources())
    ensures !HasConflict([Named([Plain("add")], None, false)], Sources())
    ensures !HasConflict([Named([Plain("Shape")], None, true)], Sources())
  {
    DisjointDeclarationsAgree([Named([Plain("foo")], None, false)], Sources());
    DisjointDeclarationsAgree([Named([Plain("add")], None, false)], Sources());
    DisjointDeclarationsAgree([Named([Plain("Shape")], None, true)], Sources());
  }

  /** A local export beside a re-export, and re-exports from two sources, are accepted. */
  lemma MixedReexportsAccepted()
    ensures !HasConflict([Declared("localVar", ValueMode), From("./module", [Plain("foo")])], Sources())
    ensures !HasConflict([From("./module1", [Plain("foo")]), From("./module2", [Plain("bar")])], Sources())
  {
    var d1 := [Declared("localVar", ValueMode), From("./module", [Plain("foo")])];
    assert NameSet(d1[1], Sources()) == {"foo"} by {
      assert d1[1].specifiers[0] == Plain("foo");
    }
    DisjointDeclarationsAgree(d1, Sources());
    var d2 := [From("./module1", [Plain("foo")]), From("./module2", [Plain("bar")])];
    assert NameSet(d2[0], Sources()) == {"foo"} by {
      assert d2[0].specifiers[0] == Plain("foo");
    }
    assert NameSet(d2[1], Sources()) == {"bar"} by {
      assert d2[1].specifiers[0] == Plain("bar");
    }
    DisjointDeclarationsAgree(d2, Sources());
  }

  /** A value re-export beside a type-only re-export of a different name is accepted. */
  lemma ValueAndTypeOfDifferentNamesAccepted()
    ensures !HasConflict([From("./module", [Plain("foo")]), TypeFrom("./types", [Plain("Bar")])], Sources())
  {
    var d := [From("./module", [Plain("foo")]), TypeFrom("./types", [Plain("Bar")])];
    assert NameSet(d[0], Sources()) == {"foo"} by {
      assert d[0].specifiers[0] == Plain("foo");
    }
    assert NameSet(d[1], Sources()) == {"Bar"} by {
      assert d[1].specifiers[0] == Plain("Bar");
    }
    DisjointDeclarationsAgree(d, Sources());
  }

  /** Re-exporting `foo` as a value and then type-only is a duplicate export of `foo`. */
  lemma ValueThenTypeOnlyRejected()
    ensures ConflictOn([From("./module", [Plain("foo")]), TypeFrom("./module", [Plain("foo")])], Sources(), "foo")
  {
    var d := [From("./module", [Plain("foo")]), TypeFrom("./module", [Plain("foo")])];
    assert Produces(d[0], Sources(), "foo", Binding(ValueMode, Forward("./module", "foo"))) by {
      assert ExternalName(d[0].specifiers[0]) == "foo";
    }
    assert Produces(d[1], Sources(), "foo", Binding(TypeMode, Forward("./module", "foo"))) by {
      assert ExternalName(d[1].specifiers[0]) == "foo";
    }
  }

  /**
   * Wildcards are accepted alone, type-only, beside an exported interface,
   * beside another wildcard and beside named re-exports from another source.
   */
  lemma WildcardsAccepted()
    ensures !HasConflict([Wildcard("./module", false)], Sources())
    ensures !HasConflict([Wildcard("./module", true)], Sources())
    ensures !HasConflict([Wildcard("./module", false), Declared("User", TypeMode)], Sources())
    ensures !HasConflict([Wildcard("./module_a", false), Wildcard("./module_b", false)], Sources())
    ensures !HasConflict([Wildcard("./module_a", false), From("./module_b", [Plain("foo"), Plain("bar")])], Sources())
  {
    DisjointDeclarationsAgree([Wildcard("./module", false)], Sources());
    DisjointDeclarationsAgree([Wildcard("./module", true)], Sources());
    DisjointDeclarationsAgree([Wildcard("./module", false), Declared("User", TypeMode)], Sources());
    DisjointDeclarationsAgree([Wildcard("./module_a", false), Wildcard("./module_b", false)], Sources());
    var d := [Wildcard("./module_a", false), From("./module_b", [Plain("foo"), Plain("bar")])];
    assert NameSet(d[1], Sources()) == {"foo", "bar"} by {
      assert d[1].specifiers[0] == Plain("foo") && d[1].specifiers[1] == Plain("bar");
    }
    DisjointDeclarationsAgree(d, Sources());
  }

  /** A type-only wildcard forwards the source's value exports as types. */
  lemma TypeOnlyWildcardForwardsTypes()
    ensures Produces(Wildcard("./module", true), Sources(), "foo", Binding(TypeMode, Forward("./module", "foo")))
    ensures forall n, b :: Produces(Wildcard("./module", true), Sources(), n, b) ==> b.mode == TypeMode
  {
  }

  /** The checker accepts the mixed program and builds its table; it rejects the duplicate export of `foo`. */
  method TestCheckerVerdicts() {
    var mixed := [From("./module", [Plain("foo")]), TypeFrom("./types", [Plain("Bar")])];
    ValueAndTypeOfDifferentNamesAccepted();
    var r := CheckExports(mixed, Sources());
    assert r.Success?;
    assert r.value["foo"].mode == ValueMode by {
      assert Produces(mixed[0], Sources(), "foo", Binding(ValueMode, Forward("./module", "foo"))) by {
        assert ExternalName(mixed[0].specifiers[0]) == "foo";
      }
    }
    var duplicate := [From("./module", [Plain("foo")]), TypeFrom("./module", [Plain("foo")])];
    ValueThenTypeOnlyRejected();
    r := CheckExports(duplicate, Sources());
    assert r.Failure?;
  }
}
