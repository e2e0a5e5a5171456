/**
 * What the three passes of `main` write to the graph, as functions of the
 * discovered files and of what parsing each of them gives. Pass 1 creates
 * the Repo and File nodes, pass 2 the Function and Class nodes of every file
 * that parses, and pass 3 the IMPORTS, CALLS and INHERITS edges of those
 * files.
 */
module Pipeline {
  import opened Strings
  import opened PyAst
  import opened ModuleNames
  import opened UnitParser
  import opened EdgeExtractor
  import opened RepoIndex
  import opened GraphModel

  /** What reading and `ast.parse` give for a file: a tree, or an exception
      (unreadable file, invalid UTF-8, syntax error). */
  datatype ParseOutcome = Parsed(tree: Node) | ParseFailed

  /** One value of `parsed_files`: the parser's three results and the
      file's module identifier. */
  datatype ParsedFile = ParsedFile(funcs: Dict<Node>, classes: Dict<Node>, imports: seq<ImportRecord>, moduleId: string)

  /** The parser's dictionaries list exactly their keys and hold only
      `FunctionDef` and `ClassDef` nodes. */
  ghost predicate WellFormed(pf: ParsedFile)
  {
    && SameKeys(pf.funcs) && SameKeys(pf.classes)
    && (forall k :: k in pf.funcs.values ==> pf.funcs.values[k].FunctionDef?)
    && (forall k :: k in pf.classes.values ==> pf.classes.values[k].ClassDef?)
  }

  /** The `parsed_files` entry of a file that parsed. */
  function ParseFile(tree: Node, moduleId: string): (pf: ParsedFile)
    ensures WellFormed(pf)
  {
    SummarizeValid(Walk(tree));
    var s := Summarize(Walk(tree));
    ParsedFile(s.funcs, s.classes, s.imports, moduleId)
  }

  /** `str(fpath)`, the key of a File node and of `parsed_files`. */
  function PathKey(t: FileRecord): string
  {
    PathString(t.path)
  }

  // ---------------------------------------------------------------- pass 1

  /** Pass 1: a Repo node and a File node per discovered file. */
  function Pass1(g: Graph, files: seq<FileRecord>): (r: Graph)
    ensures Valid(g) ==> Valid(r)
    ensures r == g.(repos := r.repos, files := r.files, contains := r.contains)
  {
    if files == [] then g
    else
      var t := files[|files| - 1];
      MergeFile(MergeRepo(Pass1(g, files[..|files| - 1]), t.repo), t.repo, PathKey(t), t.moduleId)
  }

  // ---------------------------------------------------------------- pass 2

  /** The Function nodes of one parsed file, for the given keys of its
      `funcs`, in order. */
  function DeclareFunctions(g: Graph, repo: string, path: string, pf: ParsedFile, ks: seq<string>): (r: Graph)
    requires WellFormed(pf) && forall k :: k in ks ==> k in pf.funcs.values
    ensures Valid(g) ==> Valid(r)
    ensures r == g.(functions := r.functions, declaresFunction := r.declaresFunction)
    ensures g.functions.Keys <= r.functions.Keys && g.declaresFunction <= r.declaresFunction
    ensures forall k :: k in ks ==> Qualify(pf.moduleId, k) in r.functions
    ensures path in g.files ==> forall k :: k in ks ==> (path, Qualify(pf.moduleId, k)) in r.declaresFunction
    ensures forall e :: e in r.declaresFunction ==> e in g.declaresFunction || e.0 == path
    ensures forall q :: q in r.functions ==>
      if q in g.functions then r.functions[q].file == g.functions[q].file else r.functions[q].file == path
  {
    if ks == [] then g
    else
      var k := ks[|ks| - 1];
      var node := pf.funcs.values[k];
      MergeFunction(DeclareFunctions(g, repo, path, pf, ks[..|ks| - 1]), repo, path, pf.moduleId, k, node.lineno, node.code)
  }

  /** The Class nodes of one parsed file, for the given keys of its
      `classes`, in order. */
  function DeclareClasses(g: Graph, repo: string, path: string, pf: ParsedFile, ks: seq<string>): (r: Graph)
    requires WellFormed(pf) && forall k :: k in ks ==> k in pf.classes.values
    ensures Valid(g) ==> Valid(r)
    ensures r == g.(classes := r.classes, declaresClass := r.declaresClass)
    ensures g.classes.Keys <= r.classes.Keys && g.declaresClass <= r.declaresClass
    ensures forall k :: k in ks ==> Qualify(pf.moduleId, k) in r.classes
    ensures path in g.files ==> forall k :: k in ks ==> (path, Qualify(pf.moduleId, k)) in r.declaresClass
    ensures forall e :: e in r.declaresClass ==> e in g.declaresClass || e.0 == path
    ensures forall q :: q in r.classes ==>
      if q in g.classes then r.classes[q].file == g.classes[q].file else r.classes[q].file == path
  {
    if ks == [] then g
    else
      var k := ks[|ks| - 1];
      var node := pf.classes.values[k];
      MergeClass(DeclareClasses(g, repo, path, pf, ks[..|ks| - 1]), repo, path, pf.moduleId, k, node.lineno, node.code)
  }

  /** The nodes of one parsed file: its functions, then its classes. */
  function DeclareFile(g: Graph, repo: string, path: string, pf: ParsedFile): Graph
    requires WellFormed(pf)
  {
    DeclareClasses(DeclareFunctions(g, repo, path, pf, pf.funcs.keys), repo, path, pf, pf.classes.keys)
  }

  /** The paths of the files that parse. */
  function ParsedPaths(files: seq<FileRecord>, parse: Path -> ParseOutcome): set<string>
  {
    set t | t in files && parse(t.path).Parsed? :: PathKey(t)
  }

  /** Nodes and DECLARES edges only come from parsed files: every
      DECLARES_* and IMPORTS edge starts at one, and every Function and
      Class node lives in one. */
  ghost predicate FromParsed(g: Graph, parsed: set<string>)
  {
    && (forall e :: e in g.declaresFunction ==> e.0 in parsed)
    && (forall e :: e in g.declaresClass ==> e.0 in parsed)
    && (forall e :: e in g.importsFile ==> e.0 in parsed)
    && (forall e :: e in g.importsExternal ==> e.0 in parsed)
    && (forall q :: q in g.functions ==> g.functions[q].file in parsed)
    && (forall q :: q in g.classes ==> g.classes[q].file in parsed)
  }

  /** Pass 2: the nodes of every file that parses, in discovery order; a file
      whose parse fails is skipped. */
  function Pass2(g: Graph, files: seq<FileRecord>, parse: Path -> ParseOutcome): (r: Graph)
    ensures Valid(g) ==> Valid(r)
    ensures r == g.(functions := r.functions, classes := r.classes,
                    declaresFunction := r.declaresFunction, declaresClass := r.declaresClass)
    ensures g.functions.Keys <= r.functions.Keys && g.declaresFunction <= r.declaresFunction
    ensures g.classes.Keys <= r.classes.Keys && g.declaresClass <= r.declaresClass
  {
    if files == [] then g
    else
      var t := files[|files| - 1];
      var prev := Pass2(g, files[..|files| - 1], parse);
      match parse(t.path)
      case Parsed(tree) => DeclareFile(prev, t.repo, PathKey(t), ParseFile(tree, t.moduleId))
      case ParseFailed => prev
  }

  /** Everything pass 2 adds comes from a file that parses. */
  lemma {:induction false} Pass2FromParsed(g: Graph, files: seq<FileRecord>, parse: Path -> ParseOutcome, s: set<string>)
    requires FromParsed(g, s)
    ensures FromParsed(Pass2(g, files, parse), s + ParsedPaths(files, parse))
  {
    if files != [] {
      var init, t := files[..|files| - 1], files[|files| - 1];
      Pass2FromParsed(g, init, parse, s);
      assert ParsedPaths(init, parse) <= ParsedPaths(files, parse);
      if parse(t.path).Parsed? {
        assert PathKey(t) in ParsedPaths(files, parse);
      }
    }
  }

  /** `parsed_files` after pass 2. */
  function ParsedFiles(files: seq<FileRecord>, parse: Path -> ParseOutcome): (r: Dict<ParsedFile>)
    ensures DictValid(r)
    ensures forall p :: p in r.values ==> WellFormed(r.values[p])
    ensures r.values.Keys == ParsedPaths(files, parse)
  {
    if files == [] then EmptyDict()
    else
      var t := files[|files| - 1];
      var prev := ParsedFiles(files[..|files| - 1], parse);
      assert files == files[..|files| - 1] + [t];
      match parse(t.path)
      case Parsed(tree) => Put(prev, PathKey(t), ParseFile(tree, t.moduleId))
      case ParseFailed => prev
  }

  // ---------------------------------------------------------------- pass 3

  /** Where an import leads: the File of an indexed module, an
      ExternalModule, or nowhere. */
  datatype ImportTarget = InternalFile(path: string) | ExternalModule(name: string) | Dropped

  /** The import test of pass 3: an indexed module resolves to its file;
      otherwise a name that does not start with the first segment of the
      importing module (as a raw string prefix) is external; anything else
      is dropped. */
  function Classify(imp: string, moduleId: string, moduleToFile: map<string, Path>): ImportTarget
  {
    if imp in moduleToFile then InternalFile(PathString(moduleToFile[imp]))
    else if !StartsWith(imp, FirstSegment(moduleId)) then ExternalModule(imp)
    else Dropped
  }

  /** The edge one import record of a file gives. */
  function LinkImport(g: Graph, path: string, moduleId: string, imp: string, moduleToFile: map<string, Path>): Graph
  {
    match Classify(imp, moduleId, moduleToFile)
    case InternalFile(target) => MergeImport(g, path, target)
    case ExternalModule(name) => MergeExternalImport(g, path, name)
    case Dropped => g
  }

  /** The IMPORTS edges of one file, in the order of its import records. */
  function LinkImports(g: Graph, path: string, moduleId: string, imports: seq<ImportRecord>,
                       moduleToFile: map<string, Path>): (r: Graph)
    ensures Valid(g) ==> Valid(r)
  {
    if imports == [] then g
    else
      var prev := LinkImports(g, path, moduleId, imports[..|imports| - 1], moduleToFile);
      LinkImport(prev, path, moduleId, imports[|imports| - 1].name, moduleToFile)
  }

  /** The CALLS edges from one function: one to each called name that is a
      key of the same file's `funcs`, when both Functions exist. */
  function LinkCallsFrom(g: Graph, fromFunc: string, pf: ParsedFile, callees: set<string>): (r: Graph)
    ensures Valid(g) ==> Valid(r)
  {
    g.(calls := g.calls + set c | c in callees && c in pf.funcs.values && fromFunc in g.functions &&
                                  Qualify(pf.moduleId, c) in g.functions :: (fromFunc, Qualify(pf.moduleId, c)))
  }

  /** The CALLS edges of one file, for the given keys of its `funcs`. */
  function LinkCalls(g: Graph, pf: ParsedFile, ks: seq<string>): (r: Graph)
    requires forall k :: k in ks ==> k in pf.funcs.values
    ensures Valid(g) ==> Valid(r)
  {
    if ks == [] then g
    else
      var k := ks[|ks| - 1];
      LinkCallsFrom(LinkCalls(g, pf, ks[..|ks| - 1]), Qualify(pf.moduleId, k), pf, CallNames(pf.funcs.values[k]))
  }

  /** The INHERITS edges of one class: one to each base name that is a module
      identifier, when a Class of that qualified name exists. */
  function LinkBases(g: Graph, child: string, bases: seq<string>, modules: set<string>): (r: Graph)
    ensures Valid(g) ==> Valid(r)
  {
    if bases == [] then g
    else
      var prev := LinkBases(g, child, bases[..|bases| - 1], modules);
      var b := bases[|bases| - 1];
      if b in modules then MergeInherits(prev, child, b) else prev
  }

  /** The INHERITS edges of one file, for the given keys of its `classes`. */
  function LinkInherits(g: Graph, pf: ParsedFile, modules: set<string>, ks: seq<string>): (r: Graph)
    requires WellFormed(pf) && forall k :: k in ks ==> k in pf.classes.values
    ensures Valid(g) ==> Valid(r)
  {
    if ks == [] then g
    else
      var k := ks[|ks| - 1];
      var prev := LinkInherits(g, pf, modules, ks[..|ks| - 1]);
      LinkBases(prev, Qualify(pf.moduleId, k), BaseNames(pf.classes.values[k].bases), modules)
  }

  /** Every edge of one parsed file: imports, then calls, then inheritance. */
  function LinkFile(g: Graph, path: string, pf: ParsedFile, moduleToFile: map<string, Path>, modules: set<string>): (r: Graph)
    requires WellFormed(pf)
    ensures Valid(g) ==> Valid(r)
  {
    var g1 := LinkImports(g, path, pf.moduleId, pf.imports, moduleToFile);
    var g2 := LinkCalls(g1, pf, pf.funcs.keys);
    LinkInherits(g2, pf, modules, pf.classes.keys)
  }

  /** Pass 3: the edges of the given entries of `parsed_files`, in order. */
  function Pass3(g: Graph, parsed: Dict<ParsedFile>, ps: seq<string>,
                 moduleToFile: map<string, Path>, modules: set<string>): (r: Graph)
    requires forall p :: p in parsed.values ==> WellFormed(parsed.values[p])
    requires forall p :: p in ps ==> p in parsed.values
    ensures Valid(g) ==> Valid(r)
  {
    if ps == [] then g
    else
      var p := ps[|ps| - 1];
      LinkFile(Pass3(g, parsed, ps[..|ps| - 1], moduleToFile, modules), p, parsed.values[p], moduleToFile, modules)
  }

  /** The graph `main` leaves behind: a clean database, then the three
      passes over the discovered files. */
  function Build(files: seq<FileRecord>, parse: Path -> ParseOutcome): Graph
  {
    var g1 := Pass1(EmptyGraph(), files);
    var g2 := Pass2(g1, files, parse);
    var parsed := ParsedFiles(files, parse);
    var moduleToFile := ModuleToFile(files);
    Pass3(g2, parsed, parsed.keys, moduleToFile, moduleToFile.Keys)
  }
}
