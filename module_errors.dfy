/**
 * Module identity, module-kind classification by file extension, and the
 * error taxonomy of the module resolver with its user-visible messages.
 */
module ModuleErrors {

  import opened Wrappers

  /** A module is identified by its canonical file path; equality is equality of paths. */
  datatype ModuleId = ModuleId(path: string) {

    /** The path the identifier was built from. */
    function Path(): (p: string)
      ensures ModuleId(p) == this
    {
      path
    }

    /** The path as text; the source tells a path buffer from a string slice, the model does not. */
    function AsStr(): (s: string)
      ensures ModuleId(s) == this
    {
      Path()
    }

    /** The Display rendering of an identifier: its path. */
    function ToString(): (s: string)
      ensures s == AsStr()
    {
      path
    }
  }

  /** Builds the identifier of the module stored at `path`. */
  function NewModuleId(path: string): (id: ModuleId)
    ensures id.Path() == path && id.AsStr() == path && id.ToString() == path
  {
    ModuleId(path)
  }

  /** Identifiers built from paths are equal exactly when the paths are. */
  lemma ModuleIdEquality(p: string, q: string)
    ensures NewModuleId(p) == NewModuleId(q) <==> p == q
  {
  }

  /** Equal paths deduplicate in a set; a different path stays a separate member. */
  lemma {:induction false} ModuleIdsDeduplicate(p: string, q: string)
    requires p != q
    ensures |{NewModuleId(p), NewModuleId(p), NewModuleId(q)}| == 2
  {
    var s := {NewModuleId(p), NewModuleId(p), NewModuleId(q)};
    assert s == {ModuleId(p)} + {ModuleId(q)};
    assert ModuleId(p) != ModuleId(q) by { ModuleIdEquality(p, q); }
  }

  /** The three kinds of source file the resolver knows about. */
  datatype ModuleKind = Typed | Declaration | PlainLua {

    /** The extension written for this kind of file. */
    function Extension(): (e: string)
      ensures |e| > 0
    {
      match this
      case Typed => "luax"
      case Declaration => "d.luax"
      case PlainLua => "lua"
    }
  }

  /** The extension of each kind. */
  lemma ExtensionTable()
    ensures Typed.Extension() == "luax"
    ensures Declaration.Extension() == "d.luax"
    ensures PlainLua.Extension() == "lua"
  {
  }

  /**
   * Classifies a file extension. The declaration kind is recognised only in
   * its dotted form ".d.luax"; every other input is not a module.
   */
  function FromExtension(ext: string): (k: Option<ModuleKind>)
    ensures k == Some(Typed) <==> ext == "luax"
    ensures k == Some(PlainLua) <==> ext == "lua"
    ensures k == Some(Declaration) <==> ext == ".d.luax"
  {
    if ext == "luax" then Some(Typed)
    else if ext == "lua" then Some(PlainLua)
    else if ext == ".d.luax" then Some(Declaration)
    else None
  }

  /** The classification of the extensions the resolver's tests name. */
  lemma FromExtensionTable()
    ensures FromExtension("luax") == Some(Typed)
    ensures FromExtension("lua") == Some(PlainLua)
    ensures FromExtension(".d.luax") == Some(Declaration)
    ensures FromExtension("d.luax") == None
    ensures FromExtension("txt") == None && FromExtension("rs") == None
    ensures FromExtension("") == None && FromExtension("d.ts") == None
    ensures FromExtension("unknown") == None
  {
  }

  /**
   * Classifying the extension of a kind gives that kind back for the typed
   * and the plain kinds, but not for declarations: "d.luax" is not a module
   * extension, so the two mappings are not inverse to each other.
   */
  lemma {:induction false} ExtensionRoundTrip(k: ModuleKind)
    ensures FromExtension(k.Extension()) == Some(k) <==> k != Declaration
    ensures k == Declaration ==> k.Extension() == "d.luax" && FromExtension(k.Extension()) == None
  {
    match k
    case Typed =>
    case PlainLua =>
    case Declaration =>
      assert k.Extension() == "d.luax";
  }

  /** The errors the module resolver reports. */
  datatype ModuleError =
    | NotFound(source: string, searchedPaths: seq<string>)
    | CircularDependency(cycle: seq<ModuleId>)
    | InvalidPath(source: string, reason: string)
    | IoError(path: string, message: string)
    | NotCompiled(id: ModuleId)
    | ExportNotFound(moduleId: ModuleId, exportName: string)

  /** `sub` occurs as a contiguous piece of `s`. */
  ghost predicate IsInfix(sub: string, s: string) {
    exists pre, post :: s == pre + sub + post
  }

  lemma InfixOfConcat(pre: string, sub: string, post: string)
    ensures IsInfix(sub, pre + sub + post)
  {
  }

  lemma InfixTransitive(a: string, b: string, c: string)
    requires IsInfix(a, b) && IsInfix(b, c)
    ensures IsInfix(a, c)
  {
    var p1, q1 :| b == p1 + a + q1;
    var p2, q2 :| c == p2 + b + q2;
    assert c == (p2 + p1) + a + (q1 + q2);
  }

  /** The hint appended to a cycle report. */
  const CycleHint: string :=
    "\nThis runtime import " + "cycle" + " can be broken by changing one of these imports to '"
    + "import type" + "' if it is only used for types"

  /** The searched paths, one per line. */
  function SearchedList(paths: seq<string>): string {
    if paths == [] then "" else "\n  - " + paths[0] + SearchedList(paths[1..])
  }

  /** The modules of a cycle rendered as `a -> b -> a`. */
  function Chain(cycle: seq<ModuleId>): string {
    if cycle == [] then ""
    else if |cycle| == 1 then cycle[0].ToString()
    else cycle[0].ToString() + " -> " + Chain(cycle[1..])
  }

  /** `s` begins with `p`. */
  predicate StartsWith(s: string, p: string) {
    |p| <= |s| && s[..|p|] == p
  }

  /** The Display text of a resolver error. */
  function Message(e: ModuleError): string
  {
    match e
    case NotFound(source, searched) =>
      "Cannot find module '" + source + "'" + "\n" + "Searched paths:" + SearchedList(searched)
    case CircularDependency(cycle) =>
      "Circular runtime dependency detected:" + " " + Chain(cycle) + CycleHint
    case InvalidPath(source, reason) =>
      "Invalid module path '" + source + "': " + reason
    case IoError(path, message) =>
      "I/O error reading '" + path + "': " + message
    case NotCompiled(id) =>
      "Module '" + id.ToString() + "' has not been compiled yet"
    case ExportNotFound(id, name) =>
      "Module '" + id.ToString() + "' does not export '" + name + "'"
  }

  /** Each kind of error opens with its own heading, naming what went wrong. */
  lemma MessageHeadings(e: ModuleError)
    ensures e.NotFound? ==> StartsWith(Message(e), "Cannot find module '" + e.source + "'")
    ensures e.CircularDependency? ==> StartsWith(Message(e), "Circular runtime dependency detected:")
    ensures e.InvalidPath? ==> StartsWith(Message(e), "Invalid module path '" + e.source + "': ")
    ensures e.IoError? ==> StartsWith(Message(e), "I/O error reading '" + e.path + "': ")
    ensures e.NotCompiled? ==> StartsWith(Message(e), "Module '" + e.id.ToString() + "' has not been compiled yet")
    ensures e.ExportNotFound? ==> StartsWith(Message(e), "Module '" + e.moduleId.ToString() + "' does not export '" + e.exportName + "'")
  {
  }

  lemma {:induction false} SearchedListMentions(paths: seq<string>, k: nat)
    requires k < |paths|
    ensures IsInfix(paths[k], SearchedList(paths))
  {
    if k == 0 {
      InfixOfConcat("\n  - ", paths[0], SearchedList(paths[1..]));
    } else {
      SearchedListMentions(paths[1..], k - 1);
      InfixOfConcat("\n  - " + paths[0], SearchedList(paths[1..]), "");
      assert "\n  - " + paths[0] + SearchedList(paths[1..]) + "" == SearchedList(paths);
      InfixTransitive(paths[k], SearchedList(paths[1..]), SearchedList(paths));
    }
  }

  lemma {:induction false} ChainMentions(cycle: seq<ModuleId>, k: nat)
    requires k < |cycle|
    ensures IsInfix(cycle[k].path, Chain(cycle))
  {
    if |cycle| == 1 {
      InfixOfConcat("", cycle[0].path, "");
      assert "" + cycle[0].path + "" == Chain(cycle);
    } else if k == 0 {
      InfixOfConcat("", cycle[0].path, " -> " + Chain(cycle[1..]));
      assert "" + cycle[0].path + (" -> " + Chain(cycle[1..])) == Chain(cycle);
    } else {
      ChainMentions(cycle[1..], k - 1);
      InfixOfConcat(cycle[0].path + " -> ", Chain(cycle[1..]), "");
      assert cycle[0].path + " -> " + Chain(cycle[1..]) + "" == Chain(cycle);
      InfixTransitive(cycle[k].path, Chain(cycle[1..]), Chain(cycle));
    }
  }

  /** A not-found report names the module, has a searched-paths section and lists every path tried. */
  lemma NotFoundMessage(source: string, searched: seq<string>)
    ensures IsInfix("Cannot find module '" + source + "'", Message(NotFound(source, searched)))
    ensures IsInfix("Searched paths:", Message(NotFound(source, searched)))
    ensures forall k :: 0 <= k < |searched| ==> IsInfix(searched[k], Message(NotFound(source, searched)))
  {
    var m := Message(NotFound(source, searched));
    var head := "Cannot find module '" + source + "'";
    var list := SearchedList(searched);
    assert m == head + "\n" + "Searched paths:" + list;
    assert m == "" + head + ("\n" + "Searched paths:" + list);
    InfixOfConcat("", head, "\n" + "Searched paths:" + list);
    InfixOfConcat(head + "\n", "Searched paths:", list);
    forall k | 0 <= k < |searched|
      ensures IsInfix(searched[k], m)
    {
      SearchedListMentions(searched, k);
      assert m == (head + "\n" + "Searched paths:") + list + "";
      InfixOfConcat(head + "\n" + "Searched paths:", list, "");
      InfixTransitive(searched[k], list, m);
    }
  }

  /**
   * A cycle report carries the fixed heading, names every module of the
   * cycle, and mentions `import type` as the way to break it.
   */
  lemma CircularDependencyMessage(cycle: seq<ModuleId>)
    ensures IsInfix("Circular runtime dependency detected:", Message(CircularDependency(cycle)))
    ensures forall k :: 0 <= k < |cycle| ==> IsInfix(cycle[k].path, Message(CircularDependency(cycle)))
    ensures IsInfix("cycle", Message(CircularDependency(cycle)))
    ensures IsInfix("import type", Message(CircularDependency(cycle)))
  {
    var m := Message(CircularDependency(cycle));
    var heading := "Circular runtime dependency detected:";
    var chain := Chain(cycle);
    assert m == "" + heading + (" " + chain + CycleHint);
    InfixOfConcat("", heading, " " + chain + CycleHint);
    forall k | 0 <= k < |cycle|
      ensures IsInfix(cycle[k].path, m)
    {
      ChainMentions(cycle, k);
      InfixOfConcat(heading + " ", chain, CycleHint);
      InfixTransitive(cycle[k].path, chain, m);
    }
    assert m == (heading + " " + chain) + CycleHint + "";
    InfixOfConcat(heading + " " + chain, CycleHint, "");
    CycleHintWords();
    InfixTransitive("cycle", CycleHint, m);
    InfixTransitive("import type", CycleHint, m);
  }

  /** The hint names the cycle and suggests `import type`. */
  lemma CycleHintWords()
    ensures IsInfix("cycle", CycleHint) && IsInfix("import type", CycleHint)
  {
    var lead := "\nThis runtime import ";
    var mid := " can be broken by changing one of these imports to '";
    var tail := "' if it is only used for types";
    assert CycleHint == lead + "cycle" + (mid + "import type" + tail);
    InfixOfConcat(lead, "cycle", mid + "import type" + tail);
    assert CycleHint == (lead + "cycle" + mid) + "import type" + tail;
    InfixOfConcat(lead + "cycle" + mid, "import type", tail);
  }

  /** An invalid-path report quotes the path and gives the reason. */
  lemma InvalidPathMessage(source: string, reason: string)
    ensures IsInfix("Invalid module path '" + source + "': " + reason, Message(InvalidPath(source, reason)))
  {
    InfixOfConcat("", Message(InvalidPath(source, reason)), "");
  }

  /** An I/O report quotes the file and gives the underlying message. */
  lemma IoErrorMessage(path: string, message: string)
    ensures IsInfix("I/O error reading '" + path + "': " + message, Message(IoError(path, message)))
  {
    InfixOfConcat("", Message(IoError(path, message)), "");
  }

  /** A not-compiled report names the module. */
  lemma NotCompiledMessage(id: ModuleId)
    ensures IsInfix("Module '" + id.path + "' has not been compiled yet", Message(NotCompiled(id)))
  {
    InfixOfConcat("", Message(NotCompiled(id)), "");
  }

  /** A missing-export report names the module and the export asked for. */
  lemma ExportNotFoundMessage(id: ModuleId, name: string)
    ensures IsInfix("Module '" + id.path + "' does not export '" + name + "'", Message(ExportNotFound(id, name)))
  {
    InfixOfConcat("", Message(ExportNotFound(id, name)), "");
  }
}
