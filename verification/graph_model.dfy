/**
 * The property graph the builder writes, as a value, and the effect of each
 * of `Neo4jGraphBuilder`'s write queries on it. Nodes are keyed as the
 * queries key them (`Repo.name`, `File.path`, `Function.qualified_name`,
 * `Class.qualified_name`, `ExternalModule.name`); a relationship of one type
 * is a set of ordered endpoint pairs, which is what MERGE on a relationship
 * pattern guarantees.
 */
module GraphModel {

  /** A `File` node's attributes, set ON CREATE only. */
  datatype FileNode = FileNode(moduleId: string, repo: string)

  /** A `Function` or `Class` node's attributes: all set ON CREATE, and `code`
      set again ON MATCH. */
  datatype DefNode = DefNode(name: string, lineno: int, file: string, repo: string, code: string)

  type Edge = (string, string)

  datatype Graph = Graph(
    repos: set<string>,
    files: map<string, FileNode>,
    functions: map<string, DefNode>,
    classes: map<string, DefNode>,
    externals: set<string>,
    contains: set<Edge>,          // Repo -[:CONTAINS]-> File
    declaresFunction: set<Edge>,  // File -[:DECLARES_FUNCTION]-> Function
    declaresClass: set<Edge>,     // File -[:DECLARES_CLASS]-> Class
    importsFile: set<Edge>,       // File -[:IMPORTS]-> File
    importsExternal: set<Edge>,   // File -[:IMPORTS]-> ExternalModule
    calls: set<Edge>,             // Function -[:CALLS]-> Function
    inherits: set<Edge>)          // Class -[:INHERITS]-> Class

  /** The graph after `MATCH (n) DETACH DELETE n`. */
  function EmptyGraph(): Graph
  {
    Graph({}, map[], map[], map[], {}, {}, {}, {}, {}, {}, {}, {})
  }

  /** Every relationship joins two existing nodes of the right labels, and
      every file carries the name of an existing repository that contains it. */
  ghost predicate Valid(g: Graph)
  {
    && (forall p :: p in g.files ==> g.files[p].repo in g.repos && (g.files[p].repo, p) in g.contains)
    && (forall e :: e in g.contains ==> e.0 in g.repos && e.1 in g.files)
    && (forall e :: e in g.declaresFunction ==> e.0 in g.files && e.1 in g.functions)
    && (forall e :: e in g.declaresClass ==> e.0 in g.files && e.1 in g.classes)
    && (forall e :: e in g.importsFile ==> e.0 in g.files && e.1 in g.files)
    && (forall e :: e in g.importsExternal ==> e.0 in g.files && e.1 in g.externals)
    && (forall e :: e in g.calls ==> e.0 in g.functions && e.1 in g.functions)
    && (forall e :: e in g.inherits ==> e.0 in g.classes && e.1 in g.classes)
  }

  lemma EmptyGraphValid()
    ensures Valid(EmptyGraph())
  {
  }

  /** `f"{module_name}.{name}"`, the key of Function and Class nodes. */
  function Qualify(moduleId: string, name: string): string
  {
    moduleId + "." + name
  }

  /** `MERGE (r:Repo {name: $repo_name})`. */
  function MergeRepo(g: Graph, repo: string): (h: Graph)
    ensures Valid(g) ==> Valid(h)
  {
    g.(repos := g.repos + {repo})
  }

  /** `create_file_node`: nothing at all unless the Repo exists (the MATCH
      yields no row); otherwise the File is merged, its attributes set only if
      it is new, and the CONTAINS edge merged. */
  function MergeFile(g: Graph, repo: string, path: string, moduleId: string): (h: Graph)
    ensures Valid(g) ==> Valid(h)
  {
    if repo !in g.repos then g
    else
      g.(files := if path in g.files then g.files else g.files[path := FileNode(moduleId, repo)],
         contains := g.contains + {(repo, path)})
  }

  /** The node-merge half of `create_function_node` / `create_class_node`:
      a new key gets every attribute, an existing one only a new `code`. */
  function MergeDef(defs: map<string, DefNode>, key: string, node: DefNode): map<string, DefNode>
  {
    if key in defs then defs[key := defs[key].(code := node.code)] else defs[key := node]
  }

  /** `create_function_node`: the Function is merged whether or not its File
      exists; the DECLARES_FUNCTION edge only when the File exists. */
  function MergeFunction(g: Graph, repo: string, path: string, moduleId: string,
                         name: string, lineno: int, code: string): (h: Graph)
    ensures Valid(g) ==> Valid(h)
    ensures forall q :: q in h.functions ==>
      if q in g.functions then h.functions[q].file == g.functions[q].file else h.functions[q].file == path
  {
    var key := Qualify(moduleId, name);
    g.(functions := MergeDef(g.functions, key, DefNode(name, lineno, path, repo, code)),
       declaresFunction := if path in g.files then g.declaresFunction + {(path, key)} else g.declaresFunction)
  }

  /** `create_class_node`, the same for Class and DECLARES_CLASS. */
  function MergeClass(g: Graph, repo: string, path: string, moduleId: string,
                      name: string, lineno: int, code: string): (h: Graph)
    ensures Valid(g) ==> Valid(h)
    ensures forall q :: q in h.classes ==>
      if q in g.classes then h.classes[q].file == g.classes[q].file else h.classes[q].file == path
  {
    var key := Qualify(moduleId, name);
    g.(classes := MergeDef(g.classes, key, DefNode(name, lineno, path, repo, code)),
       declaresClass := if path in g.files then g.declaresClass + {(path, key)} else g.declaresClass)
  }

  /** `create_import_edge`: only between two existing Files. */
  function MergeImport(g: Graph, fromFile: string, toFile: string): (h: Graph)
    ensures Valid(g) ==> Valid(h)
  {
    if fromFile in g.files && toFile in g.files then g.(importsFile := g.importsFile + {(fromFile, toFile)})
    else g
  }

  /** `create_call_edge`: only between two existing Functions. */
  function MergeCall(g: Graph, fromFunc: string, toFunc: string): (h: Graph)
    ensures Valid(g) ==> Valid(h)
  {
    if fromFunc in g.functions && toFunc in g.functions then g.(calls := g.calls + {(fromFunc, toFunc)})
    else g
  }

  /** `create_inherits_edge`: only between two existing Classes. */
  function MergeInherits(g: Graph, childClass: string, parentClass: string): (h: Graph)
    ensures Valid(g) ==> Valid(h)
  {
    if childClass in g.classes && parentClass in g.classes then g.(inherits := g.inherits + {(childClass, parentClass)})
    else g
  }

  /** `create_external_import_edge`: the ExternalModule is merged in any case,
      the IMPORTS edge only when the source File exists. */
  function MergeExternalImport(g: Graph, fromFile: string, external: string): (h: Graph)
    ensures Valid(g) ==> Valid(h)
  {
    g.(externals := g.externals + {external},
       importsExternal := if fromFile in g.files then g.importsExternal + {(fromFile, external)} else g.importsExternal)
  }

  /** A File appears only under an existing Repo, and a File once created
      keeps the module and repository it was created with. */
  lemma FileNeedsRepo(g: Graph, repo: string, path: string, moduleId: string)
    ensures path in MergeFile(g, repo, path, moduleId).files <==> path in g.files || repo in g.repos
    ensures forall p :: p in g.files ==> MergeFile(g, repo, path, moduleId).files[p] == g.files[p]
    ensures path !in g.files && repo in g.repos ==>
      MergeFile(g, repo, path, moduleId).files[path] == FileNode(moduleId, repo)
  {
  }

  /** An ExternalModule node is merged even when the importing File is
      missing; the edge is not. */
  lemma ExternalWithoutSource(g: Graph, fromFile: string, external: string)
    requires fromFile !in g.files
    ensures external in MergeExternalImport(g, fromFile, external).externals
    ensures MergeExternalImport(g, fromFile, external).importsExternal == g.importsExternal
  {
  }

  /** Every node write is safe to repeat: running it a second time with the
      same arguments changes nothing. */
  lemma NodeMergesIdempotent(g: Graph, repo: string, path: string, moduleId: string,
                             name: string, lineno: int, code: string)
    ensures MergeRepo(MergeRepo(g, repo), repo) == MergeRepo(g, repo)
    ensures MergeFile(MergeFile(g, repo, path, moduleId), repo, path, moduleId) == MergeFile(g, repo, path, moduleId)
    ensures MergeFunction(MergeFunction(g, repo, path, moduleId, name, lineno, code), repo, path, moduleId, name, lineno, code) ==
            MergeFunction(g, repo, path, moduleId, name, lineno, code)
    ensures MergeClass(MergeClass(g, repo, path, moduleId, name, lineno, code), repo, path, moduleId, name, lineno, code) ==
            MergeClass(g, repo, path, moduleId, name, lineno, code)
  {
    var key := Qualify(moduleId, name);
    var node := DefNode(name, lineno, path, repo, code);
    assert MergeDef(MergeDef(g.functions, key, node), key, node) == MergeDef(g.functions, key, node);
    assert MergeDef(MergeDef(g.classes, key, node), key, node) == MergeDef(g.classes, key, node);
  }

  /** Every relationship write is safe to repeat. */
  lemma EdgeMergesIdempotent(g: Graph, a: string, b: string)
    ensures MergeImport(MergeImport(g, a, b), a, b) == MergeImport(g, a, b)
    ensures MergeCall(MergeCall(g, a, b), a, b) == MergeCall(g, a, b)
    ensures MergeInherits(MergeInherits(g, a, b), a, b) == MergeInherits(g, a, b)
    ensures MergeExternalImport(MergeExternalImport(g, a, b), a, b) == MergeExternalImport(g, a, b)
  {
  }

  /** One upsert of a Function or Class: the key and the attributes it
      carries. */
  datatype Upsert = Upsert(key: string, node: DefNode)

  /** The node map after a sequence of upserts. */
  function MergeDefs(defs: map<string, DefNode>, ups: seq<Upsert>): map<string, DefNode>
  {
    if ups == [] then defs
    else
      var last := ups[|ups| - 1];
      MergeDef(MergeDefs(defs, ups[..|ups| - 1]), last.key, last.node)
  }

  /** A key is present after the upserts iff it was before or one of them
      has it. */
  lemma {:induction false} UpsertKeys(defs: map<string, DefNode>, ups: seq<Upsert>, key: string)
    ensures key in MergeDefs(defs, ups) <==> key in defs || exists i :: 0 <= i < |ups| && ups[i].key == key
  {
    if ups != [] {
      var init := ups[..|ups| - 1];
      UpsertKeys(defs, init, key);
      if exists i :: 0 <= i < |ups| - 1 && ups[i].key == key {
        var i :| 0 <= i < |ups| - 1 && ups[i].key == key;
        assert init[i] == ups[i];
      }
      if exists i :: 0 <= i < |init| && init[i].key == key {
        var i :| 0 <= i < |init| && init[i].key == key;
        assert ups[i] == init[i];
      }
    }
  }

  /** The first upsert of a new key fixes every attribute but `code`. */
  lemma {:induction false} UpsertKeepsFirst(defs: map<string, DefNode>, ups: seq<Upsert>, key: string, i: nat)
    requires key !in defs
    requires i < |ups| && ups[i].key == key
    requires forall j :: 0 <= j < i ==> ups[j].key != key
    ensures key in MergeDefs(defs, ups)
    ensures MergeDefs(defs, ups)[key].(code := "") == ups[i].node.(code := "")
  {
    var init := ups[..|ups| - 1];
    if i == |ups| - 1 {
      UpsertKeys(defs, init, key);
    } else {
      assert init[i] == ups[i];
      forall j | 0 <= j < i ensures init[j].key != key {
        assert init[j] == ups[j];
      }
      UpsertKeepsFirst(defs, init, key, i);
    }
  }

  /** The last upsert of a key decides its `code`. */
  lemma {:induction false} UpsertTakesLastCode(defs: map<string, DefNode>, ups: seq<Upsert>, key: string, k: nat)
    requires k < |ups| && ups[k].key == key
    requires forall j :: k < j < |ups| ==> ups[j].key != key
    ensures key in MergeDefs(defs, ups)
    ensures MergeDefs(defs, ups)[key].code == ups[k].node.code
  {
    var init := ups[..|ups| - 1];
    if k < |ups| - 1 {
      assert init[k] == ups[k];
      forall j | k < j < |init| ensures init[j].key != key {
        assert init[j] == ups[j];
      }
      UpsertTakesLastCode(defs, init, key, k);
    }
  }

  /**
   * Upsert convergence: after any sequence of upserts of a key that was not
   * there before, there is one node for the key; its name, line, file and
   * repository are those of the first upsert of the key and its code is that
   * of the last one.
   */
  lemma UpsertConvergence(defs: map<string, DefNode>, ups: seq<Upsert>, key: string, i: nat, k: nat)
    requires key !in defs
    requires i <= k < |ups| && ups[i].key == key && ups[k].key == key
    requires forall j :: 0 <= j < i ==> ups[j].key != key
    requires forall j :: k < j < |ups| ==> ups[j].key != key
    ensures key in MergeDefs(defs, ups)
    ensures MergeDefs(defs, ups)[key] == ups[i].node.(code := ups[k].node.code)
  {
    UpsertKeepsFirst(defs, ups, key, i);
    UpsertTakesLastCode(defs, ups, key, k);
  }

  /** The worked case: the same key created twice with different code keeps
      the first line and file and takes the second code. */
  lemma UpsertTwiceExample(defs: map<string, DefNode>, key: string, first: DefNode, second: DefNode)
    requires key !in defs
    ensures MergeDef(MergeDef(defs, key, first), key, second) == defs[key := first.(code := second.code)]
  {
  }
}
