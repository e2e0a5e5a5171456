/**
 * `Neo4jGraphBuilder` as an object whose database state is held in fields:
 * each write method changes the stored graph exactly as the MERGE it sends
 * would, as `GraphModel` defines it.
 */
module GraphStore {
  import opened GraphModel

  class Store {
    var repos: set<string>
    var files: map<string, FileNode>
    var functions: map<string, DefNode>
    var classes: map<string, DefNode>
    var externals: set<string>
    var contains: set<Edge>
    var declaresFunction: set<Edge>
    var declaresClass: set<Edge>
    var importsFile: set<Edge>
    var importsExternal: set<Edge>
    var calls: set<Edge>
    var inherits: set<Edge>

    /** The database contents as a graph value. */
    function State(): Graph
      reads this
    {
      Graph(repos, files, functions, classes, externals, contains, declaresFunction,
            declaresClass, importsFile, importsExternal, calls, inherits)
    }

    /** A connection to a database: the store holds whatever the database
        held when it was opened (`prior`, for example an earlier build). */
    constructor (prior: Graph)
      ensures State() == prior
    {
      repos, files, functions, classes, externals := prior.repos, prior.files, prior.functions, prior.classes, prior.externals;
      contains, declaresFunction, declaresClass := prior.contains, prior.declaresFunction, prior.declaresClass;
      importsFile, importsExternal, calls, inherits := prior.importsFile, prior.importsExternal, prior.calls, prior.inherits;
    }

    /** `clear_database`: every node and relationship is deleted. */
    method ClearDatabase()
      modifies this
      ensures State() == EmptyGraph()
    {
      repos, files, functions, classes, externals := {}, map[], map[], map[], {};
      contains, declaresFunction, declaresClass := {}, {}, {};
      importsFile, importsExternal, calls, inherits := {}, {}, {}, {};
    }

    method CreateRepoNode(repoName: string)
      modifies this
      ensures State() == MergeRepo(old(State()), repoName)
    {
      repos := repos + {repoName};
    }

    method CreateFileNode(repoName: string, filePath: string, moduleName: string)
      modifies this
      ensures State() == MergeFile(old(State()), repoName, filePath, moduleName)
    {
      if repoName in repos {
        if filePath !in files {
          files := files[filePath := FileNode(moduleName, repoName)];
        }
        contains := contains + {(repoName, filePath)};
      }
    }

    method CreateFunctionNode(repoName: string, filePath: string, moduleName: string,
                              funcName: string, lineno: int, code: string)
      modifies this
      ensures State() == MergeFunction(old(State()), repoName, filePath, moduleName, funcName, lineno, code)
    {
      var key := Qualify(moduleName, funcName);
      if key in functions {
        functions := functions[key := functions[key].(code := code)];
      } else {
        functions := functions[key := DefNode(funcName, lineno, filePath, repoName, code)];
      }
      if filePath in files {
        declaresFunction := declaresFunction + {(filePath, key)};
      }
    }

    method CreateClassNode(repoName: string, filePath: string, moduleName: string,
                           className: string, lineno: int, code: string)
      modifies this
      ensures State() == MergeClass(old(State()), repoName, filePath, moduleName, className, lineno, code)
    {
      var key := Qualify(moduleName, className);
      if key in classes {
        classes := classes[key := classes[key].(code := code)];
      } else {
        classes := classes[key := DefNode(className, lineno, filePath, repoName, code)];
      }
      if filePath in files {
        declaresClass := declaresClass + {(filePath, key)};
      }
    }

    method CreateImportEdge(fromFile: string, toFile: string)
      modifies this
      ensures State() == MergeImport(old(State()), fromFile, toFile)
    {
      if fromFile in files && toFile in files {
        importsFile := importsFile + {(fromFile, toFile)};
      }
    }

    method CreateCallEdge(fromFunc: string, toFunc: string)
      modifies this
      ensures State() == MergeCall(old(State()), fromFunc, toFunc)
    {
      if fromFunc in functions && toFunc in functions {
        calls := calls + {(fromFunc, toFunc)};
      }
    }

    method CreateInheritsEdge(childClass: string, parentClass: string)
      modifies this
      ensures State() == MergeInherits(old(State()), childClass, parentClass)
    {
      if childClass in classes && parentClass in classes {
        inherits := inherits + {(childClass, parentClass)};
      }
    }

    method CreateExternalImportEdge(fromFile: string, externalModule: string)
      modifies this
      ensures State() == MergeExternalImport(old(State()), fromFile, externalModule)
    {
      externals := externals + {externalModule};
      if fromFile in files {
        importsExternal := importsExternal + {(fromFile, externalModule)};
      }
    }
  }
}
