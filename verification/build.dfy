/**
 * `main`: the three passes run against a `Neo4jGraphBuilder`, step by step,
 * each proved to leave the store in the state `Pipeline.Build` describes.
 * Reading and parsing a file is the parameter `parse`; the directory listing
 * of the base directory is the parameter `listing`.
 */
module KnowledgeGraph {
  import opened Strings
  import opened PyAst
  import opened ModuleNames
  import opened UnitParser
  import opened EdgeExtractor
  import opened RepoIndex
  import opened GraphModel
  import opened GraphStore
  import opened Pipeline

  /** Pass 2, Function nodes of one parsed file: one per key of `funcs`, in
      dictionary order. */
  method DeclareFileFunctions(graph: Store, repoName: string, path: string, pf: ParsedFile)
    requires WellFormed(pf)
    modifies graph
    ensures graph.State() == DeclareFunctions(old(graph.State()), repoName, path, pf, pf.funcs.keys)
  {
    ghost var g0 := graph.State();
    var funcNames := pf.funcs.keys;
    for j := 0 to |funcNames|
      invariant graph.State() == DeclareFunctions(g0, repoName, path, pf, funcNames[..j])
    {
      assert funcNames[..j + 1][..j] == funcNames[..j];
      var node := pf.funcs.values[funcNames[j]];
      graph.CreateFunctionNode(repoName, path, pf.moduleId, funcNames[j], node.lineno, node.code);
    }
    assert funcNames[..|funcNames|] == funcNames;
  }

  /** Pass 2, Class nodes of one parsed file: one per key of `classes`, in
      dictionary order. */
  method DeclareFileClasses(graph: Store, repoName: string, path: string, pf: ParsedFile)
    requires WellFormed(pf)
    modifies graph
    ensures graph.State() == DeclareClasses(old(graph.State()), repoName, path, pf, pf.classes.keys)
  {
    ghost var g0 := graph.State();
    var classNames := pf.classes.keys;
    for j := 0 to |classNames|
      invariant graph.State() == DeclareClasses(g0, repoName, path, pf, classNames[..j])
    {
      assert classNames[..j + 1][..j] == classNames[..j];
      var node := pf.classes.values[classNames[j]];
      graph.CreateClassNode(repoName, path, pf.moduleId, classNames[j], node.lineno, node.code);
    }
    assert classNames[..|classNames|] == classNames;
  }

  /** Pass 3, one import record: an indexed module links to its file;
      otherwise a name that does not start with `top`, the first segment of
      the importing module, links to an ExternalModule. */
  method LinkImportRecord(graph: Store, path: string, moduleId: string, top: string, impName: string,
                          moduleToFile: map<string, Path>)
    requires top == FirstSegment(moduleId)
    modifies graph
    ensures graph.State() == LinkImport(old(graph.State()), path, moduleId, impName, moduleToFile)
  {
    if impName in moduleToFile {
      graph.CreateImportEdge(path, PathString(moduleToFile[impName]));
    } else if !StartsWith(impName, top) {
      graph.CreateExternalImportEdge(path, impName);
    }
  }

  /** Pass 3, IMPORTS edges of one file: an indexed module links to its file;
      otherwise a name outside the file's top-level package links to an
      ExternalModule. */
  method LinkFileImports(graph: Store, path: string, pf: ParsedFile, moduleToFile: map<string, Path>)
    modifies graph
    ensures graph.State() == LinkImports(old(graph.State()), path, pf.moduleId, pf.imports, moduleToFile)
  {
    ghost var g0 := graph.State();
    var imports := pf.imports;
    var top := FirstSegment(pf.moduleId);
    for j := 0 to |imports|
      invariant graph.State() == LinkImports(g0, path, pf.moduleId, imports[..j], moduleToFile)
    {
      assert imports[..j + 1][..j] == imports[..j];
      LinkImportRecord(graph, path, pf.moduleId, top, imports[j].name, moduleToFile);
    }
    assert imports[..|imports|] == imports;
  }

  /** Pass 3, CALLS edges from one function: every collected call name that
      is a key of the same file's `funcs`, in whatever order the set gives. */
  method LinkFunctionCalls(graph: Store, fromFunc: string, pf: ParsedFile, calls: set<string>)
    modifies graph
    ensures graph.State() == LinkCallsFrom(old(graph.State()), fromFunc, pf, calls)
  {
    ghost var g0 := graph.State();
    var remaining := calls;
    while remaining != {}
      invariant remaining <= calls
      invariant graph.State() == LinkCallsFrom(g0, fromFunc, pf, calls - remaining)
      decreases remaining
    {
      var callName :| callName in remaining;
      ghost var done := calls - remaining;
      if callName in pf.funcs.values {
        graph.CreateCallEdge(fromFunc, Qualify(pf.moduleId, callName));
      }
      remaining := remaining - {callName};
      assert calls - remaining == done + {callName};
    }
  }

  /** Pass 3, CALLS edges of one file: for each function, the names
      `collect_call_edges` finds in it. */
  method LinkFileCalls(graph: Store, pf: ParsedFile)
    requires WellFormed(pf)
    modifies graph
    ensures graph.State() == LinkCalls(old(graph.State()), pf, pf.funcs.keys)
  {
    ghost var g0 := graph.State();
    var funcNames := pf.funcs.keys;
    for j := 0 to |funcNames|
      invariant graph.State() == LinkCalls(g0, pf, funcNames[..j])
    {
      assert funcNames[..j + 1][..j] == funcNames[..j];
      var calls := CollectCallEdges(pf.funcs.values[funcNames[j]]);
      LinkFunctionCalls(graph, Qualify(pf.moduleId, funcNames[j]), pf, calls);
    }
    assert funcNames[..|funcNames|] == funcNames;
  }

  /** Pass 3, INHERITS edges of one file: for each class, every base name
      that is a module identifier of the index. */
  method LinkFileInherits(graph: Store, pf: ParsedFile, modules: set<string>)
    requires WellFormed(pf)
    modifies graph
    ensures graph.State() == LinkInherits(old(graph.State()), pf, modules, pf.classes.keys)
  {
    ghost var g0 := graph.State();
    var classNames := pf.classes.keys;
    for j := 0 to |classNames|
      invariant graph.State() == LinkInherits(g0, pf, modules, classNames[..j])
    {
      assert classNames[..j + 1][..j] == classNames[..j];
      ghost var gj := graph.State();
      var child := Qualify(pf.moduleId, classNames[j]);
      var bases := CollectInheritanceEdges(pf.classes.values[classNames[j]]);
      for m := 0 to |bases|
        invariant graph.State() == LinkBases(gj, child, bases[..m], modules)
      {
        assert bases[..m + 1][..m] == bases[..m];
        if bases[m] in modules {
          graph.CreateInheritsEdge(child, bases[m]);
        }
      }
      assert bases[..|bases|] == bases;
    }
    assert classNames[..|classNames|] == classNames;
  }

  /** Pass 2: parse every file in discovery order, record it in
      `parsed_files` and create its nodes; a file whose parse fails is
      skipped. */
  method ParseAll(graph: Store, allFiles: seq<FileRecord>, parse: Path -> ParseOutcome)
    returns (parsedFiles: Dict<ParsedFile>)
    modifies graph
    ensures graph.State() == Pass2(old(graph.State()), allFiles, parse)
    ensures parsedFiles == ParsedFiles(allFiles, parse)
  {
    ghost var g1 := graph.State();
    parsedFiles := EmptyDict();
    for i := 0 to |allFiles|
      invariant graph.State() == Pass2(g1, allFiles[..i], parse)
      invariant parsedFiles == ParsedFiles(allFiles[..i], parse)
    {
      assert allFiles[..i + 1][..i] == allFiles[..i];
      var t := allFiles[i];
      match parse(t.path) {
        case Parsed(tree) =>
          var funcs, classes, imports := ParseDefsAndImports(tree);
          var pf := ParsedFile(funcs, classes, imports, t.moduleId);
          assert pf == ParseFile(tree, t.moduleId);
          parsedFiles := Put(parsedFiles, PathString(t.path), pf);
          DeclareFileFunctions(graph, t.repo, PathString(t.path), pf);
          DeclareFileClasses(graph, t.repo, PathString(t.path), pf);
        case ParseFailed =>
      }
    }
    assert allFiles[..|allFiles|] == allFiles;
  }

  /** Pass 1: a Repo node and a File node per discovered file. */
  method CreateFileNodes(graph: Store, allFiles: seq<FileRecord>)
    modifies graph
    ensures graph.State() == Pass1(old(graph.State()), allFiles)
  {
    ghost var g0 := graph.State();
    for i := 0 to |allFiles|
      invariant graph.State() == Pass1(g0, allFiles[..i])
    {
      assert allFiles[..i + 1][..i] == allFiles[..i];
      var t := allFiles[i];
      graph.CreateRepoNode(t.repo);
      graph.CreateFileNode(t.repo, PathString(t.path), t.moduleId);
    }
    assert allFiles[..|allFiles|] == allFiles;
  }

  /** Pass 3, one entry of `parsed_files`: its IMPORTS, then its CALLS, then
      its INHERITS edges. */
  method LinkFileEdges(graph: Store, path: string, data: ParsedFile, moduleToFile: map<string, Path>, modules: set<string>)
    requires WellFormed(data)
    modifies graph
    ensures graph.State() == LinkFile(old(graph.State()), path, data, moduleToFile, modules)
  {
    LinkFileImports(graph, path, data, moduleToFile);
    LinkFileCalls(graph, data);
    LinkFileInherits(graph, data, modules);
  }

  /** Pass 3: the IMPORTS, CALLS and INHERITS edges of every entry of
      `parsed_files`, in its order. */
  method LinkAll(graph: Store, parsedFiles: Dict<ParsedFile>, moduleToFile: map<string, Path>, modules: set<string>)
    requires forall p :: p in parsedFiles.keys ==> p in parsedFiles.values
    requires forall p :: p in parsedFiles.values ==> WellFormed(parsedFiles.values[p])
    modifies graph
    ensures graph.State() == Pass3(old(graph.State()), parsedFiles, parsedFiles.keys, moduleToFile, modules)
  {
    ghost var g0 := graph.State();
    var paths := parsedFiles.keys;
    for i := 0 to |paths|
      invariant graph.State() == Pass3(g0, parsedFiles, paths[..i], moduleToFile, modules)
    {
      ghost var prefix := paths[..i + 1];
      assert prefix[..i] == paths[..i] && prefix[i] == paths[i];
      var path := paths[i];
      LinkFileEdges(graph, path, parsedFiles.values[path], moduleToFile, modules);
    }
    assert paths[..|paths|] == paths;
  }

  /**
   * `main`: connect to the database, whatever it holds (`prior`), and
   * clear it; pass 1 creates a Repo and a File node per
   * discovered file; the index is built; pass 2 parses every file, records
   * it in `parsed_files` and creates its Function and Class nodes, skipping
   * a file whose parse fails; pass 3 creates the IMPORTS, CALLS and
   * INHERITS edges of every parsed file. The result does not depend on
   * `prior`.
   */
  method BuildKnowledgeGraph(prior: Graph, base: Path, listing: seq<BaseEntry>, parse: Path -> ParseOutcome)
    returns (graph: Store)
    ensures fresh(graph)
    ensures graph.State() == Build(PythonFiles(base, listing), parse)
  {
    graph := new Store(prior);
    graph.ClearDatabase();
    var allFiles := CollectPythonFiles(base, listing);
    CreateFileNodes(graph, allFiles);
    var moduleToFile, fileToModule := BuildRepoIndex(allFiles);
    var allRepoModules := moduleToFile.Keys;
    var parsedFiles := ParseAll(graph, allFiles, parse);
    LinkAll(graph, parsedFiles, moduleToFile, allRepoModules);
  }
}
