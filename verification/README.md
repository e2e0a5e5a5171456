# Code knowledge graph builder, modelled in Dafny

This project models the graph builder of `knowledge.py` and the schema
filter `clean_schema` of `app.py`. The builder turns a corpus of Python
repositories into a property graph with these nodes:

- `Repo`, `File`, `Function`, `Class` and `ExternalModule` nodes.

and these relationships:

- `CONTAINS`, `DECLARES_FUNCTION`, `DECLARES_CLASS`, `IMPORTS`, `CALLS` and `INHERITS`.

`main` runs the build in three passes:

1. Discover the `.py` files, then write a Repo node and a File node for each.
2. Parse every file, then write its Function and Class nodes.
3. Write the relationships of every file that parsed.

Between passes 1 and 2 it builds an index from module identifiers to files. Pass 3 uses that index to resolve imports.

The project is split into these modules:

- `Strings` (`strings.dfy`): the Python string operations the builder uses. These are `join`, `split('.')[0]`, `startswith`, the `.py` test, and the last-suffix rule of `with_suffix("")`.
- `PyAst` (`py_ast.dfy`): an abstract Python syntax tree, and `ast.walk` as a breadth-first walk.
- `ModuleNames` (`module_names.dfy`): `get_module_name` and `collect_python_files`. The directory listing is a value.
- `UnitParser` (`unit_parser.dfy`): what `parse_defs_and_imports` collects from a parsed tree. Python's insertion-ordered `dict` is `Dict`.
- `EdgeExtractor` (`edges.dfy`): `collect_call_edges` is a visitor class. `collect_inheritance_edges` is a loop over the bases.
- `RepoIndex` (`repo_index.dfy`): `build_repo_index`.
- `GraphModel` (`graph_model.dfy`): the graph as a value, plus each Cypher `MERGE` of `Neo4jGraphBuilder` as a function on it.
- `GraphStore` (`graph_store.dfy`): `Neo4jGraphBuilder` as a class. Its fields hold the database, and each write method is proved to change them as the matching `MERGE` function says.
- `Pipeline` (`pipeline.dfy`): the three passes as functions of the discovered files and of the outcome of parsing each file. `Build` is the graph `main` leaves behind.
- `PipelineProperties` (`pipeline_props.dfy`): what `Build` contains. Pass 3 is described through the writes each parsed file attempts.
  - A write goes through exactly when its endpoints exist.
  - So the contents of the final graph are stated file by file, independent of order.
- `KnowledgeGraph` (`build.dfy`): `main` as imperative code over a `Store`, proved to produce `Build`.
- `Schema` (`schema.dfy`): `clean_schema` on a JSON-like datatype.

The inheritance test of pass 3 is modelled as written (`knowledge.py:397`): a base name must be a *module identifier*, and the parent must also be an existing Class. So a base written as a plain class name never gets an edge. `PipelineProperties.BuildInherits` states the rule, and `PipelineProperties.SameModuleBaseNotLinked` shows the effect. The external-import test is also kept as written (`knowledge.py:375-378`): it is a raw string-prefix test on the first segment of the importing module.

## Model

| member | source | states |
|---|---|---|
| `Strings.FirstSegment` | knowledge.py:377 | the result is the prefix of the string before its first dot (all of it when there is none) and holds no dot |
| `Strings.SplitDotsJoin` | knowledge.py:25 | splitting at dots undoes joining with dots when no part holds a dot |
| `Strings.PythonFileNameChars` | knowledge.py:43 | `fname.lower().endswith(".py")` holds exactly when the name ends in a dot, a `p`/`P` and a `y`/`Y` |
| `Strings.LastDot` | knowledge.py:23 | the result is the position of the last dot, or none when the string has no dot |
| `Strings.StripSuffixRemovesLastSuffix` | knowledge.py:23 | `with_suffix("")` keeps the name or removes exactly one trailing dot-suffix after a non-empty stem; the name is kept exactly when it has no such suffix |
| `PyAst.WalkCovers` | knowledge.py:75 | `ast.walk` yields every node of the tree, nested ones included, and nothing else |
| `PyAst.WalkFromCovers` | knowledge.py:75 | the breadth-first queue walk yields exactly the nodes lying in the queued trees |
| `ModuleNames.GetModuleNameDefined` | knowledge.py:16-25 | a module name exists exactly for a path strictly below the repository root; otherwise Python raises `ValueError` |
| `ModuleNames.ModuleNameParts` | knowledge.py:16-25 | the module name splits at dots into the repository name, the directories and the file stem |
| `ModuleNames.ModuleNameExample` | knowledge.py:16-25 | `normalized_repos/repoA/subpkg/helper.py` below `normalized_repos/repoA` is `repoA.subpkg.helper` |
| `ModuleNames.LastSuffixOnlyExample` | knowledge.py:23 | only the last suffix is removed: `data.tar.gz` gives `data.tar` |
| `ModuleNames.ModuleNameCollision` | knowledge.py:16-25 | two different files (`a.b/c.py` and `a/b/c.py`) get the same module identifier |
| `ModuleNames.Record` | knowledge.py:44-46 | a record holds the repository name, the full path below `base/repo`, and the module name of that path |
| `ModuleNames.CollectPythonFiles` | knowledge.py:27-47 | the nested loops produce the discovery list `PythonFiles` |
| `ModuleNames.RepoFilesMembers` | knowledge.py:40-46 | a repository contributes a record exactly for each walked file whose name passes the `.py` filter |
| `ModuleNames.PythonFilesMembers` | knowledge.py:27-47 | a record is discovered exactly when it belongs to a file of a directory entry that passes the `.py` filter; non-directories contribute nothing |
| `ModuleNames.PythonFilesSound` | knowledge.py:27-47 | every discovered record belongs to a `.py` file of a directory entry, with that entry's name as repository |
| `ModuleNames.PythonFilesComplete` | knowledge.py:27-47 | every `.py` file of a directory entry is discovered |
| `ModuleNames.RecordModulePrefix` | knowledge.py:24-25 | every discovered module identifier starts with the repository name and a dot, so its first segment is the repository's |
| `ModuleNames.FirstSegmentPrefix` | knowledge.py:377 | the first segment of `a.b` is the first segment of `a` |
| `UnitParser.EmptyDict` | knowledge.py:62-63 | a fresh dict is well formed and empty |
| `UnitParser.Put` | knowledge.py:78 | `d[k] = v` keeps the dict well formed, sets the value, keeps the position of an existing key and puts a new key last |
| `UnitParser.ParseDefsAndImports` | knowledge.py:49-103 | the loop over `ast.walk` produces the summary `Summarize(Walk(tree))` |
| `UnitParser.SummarizeValid` | knowledge.py:75-88 | both dicts are well formed, and hold only `FunctionDef` and only `ClassDef` nodes respectively |
| `UnitParser.FuncsLastWins` | knowledge.py:77-81 | `funcs` has a key exactly for each walked `FunctionDef` name; its value is the last walked one of that name; async functions are not collected |
| `UnitParser.ClassesLastWins` | knowledge.py:84-88 | `classes` has a key exactly for each walked `ClassDef` name; its value is the last walked one |
| `UnitParser.NestedDefsCollected` | knowledge.py:75-81 | every `def` anywhere in the tree, methods and nested functions included, gets a key |
| `UnitParser.NestedClassesCollected` | knowledge.py:75-88 | every `class` anywhere in the tree gets a key |
| `UnitParser.ImportsInWalkOrder` | knowledge.py:91-101 | the import records are those of each walked statement, concatenated in walk order |
| `UnitParser.AppendImportRecords` | knowledge.py:91-101 | the loop over an import statement's aliases appends exactly that statement's records, in alias order |
| `UnitParser.ImportRecordsPerAlias` | knowledge.py:91-101 | each import statement contributes one record per alias, carrying the statement's line |
| `UnitParser.ImportExample` | knowledge.py:91-94 | `import a.b as h` records `a.b` |
| `UnitParser.ImportFromExamples` | knowledge.py:96-101 | `from a.b import c` records `a.b.c`; with no module only the alias is recorded; the relative level is ignored |
| `EdgeExtractor.CallNamesInConcat` | knowledge.py:126 | visiting two lists of nodes collects the union of their names |
| `EdgeExtractor.CallVisitor.constructor` | knowledge.py:114 | the visitor starts with an empty set of names |
| `EdgeExtractor.CallVisitor.Visit` | knowledge.py:116-125 | a visit adds to the set exactly the call names of the subtree |
| `EdgeExtractor.CollectCallEdges` | knowledge.py:105-128 | the result is the set of call names of the function |
| `EdgeExtractor.CallNamesAreCallees` | knowledge.py:116-125 | a name is collected exactly when some call anywhere in the tree has it as a bare callee id or a trailing attribute |
| `EdgeExtractor.CalleeExamples` | knowledge.py:118-125 | `f()` gives `f`, `obj.m()` gives only `m`, `xs[0]()` gives nothing, and a call inside an argument is found too |
| `EdgeExtractor.Reversed` | knowledge.py:151 | `reversed(name_parts)` has the same length and lists the names last first |
| `EdgeExtractor.CollectInheritanceEdges` | knowledge.py:130-154 | the loop produces the base names of the class in base order |
| `EdgeExtractor.ChainParts` | knowledge.py:146-149 | the attribute walk recovers the root and the attribute names of a chain |
| `EdgeExtractor.ChainBaseName` | knowledge.py:142-151 | a chain rooted at a name gives the dotted name in source order, which splits back into its parts |
| `EdgeExtractor.SkippedBases` | knowledge.py:152 | subscripts, calls and chains not rooted at a name give no base name |
| `EdgeExtractor.BaseNamesOrder` | knowledge.py:141-153 | the base names of a list are those of any split of it, concatenated in order |
| `RepoIndex.BuildRepoIndex` | knowledge.py:158-169 | the loop produces `ModuleToFile` and `FileToModule` |
| `RepoIndex.ModuleToFileLastWins` | knowledge.py:166-167 | every discovered module identifier is a key and nothing else is; its file is the one of the last record with that identifier |
| `RepoIndex.FileToModuleLastWins` | knowledge.py:166-168 | every discovered path is a key and nothing else is; its identifier is that of the last record for the path |
| `RepoIndex.IndexRoundTrip` | knowledge.py:158-169 | when paths determine identifiers, the file of a module maps back to that module |
| `RepoIndex.DiscoveryPathDeterminesModule` | knowledge.py:27-47 | discovery gives each path a single module identifier |
| `GraphModel.EmptyGraphValid` | knowledge.py:189-192 | the cleared database satisfies the graph invariant |
| `GraphModel.MergeRepo` | knowledge.py:194-203 | the Repo merge preserves the graph invariant |
| `GraphModel.MergeFile` | knowledge.py:205-218 | the File merge preserves the invariant that every File is contained in an existing Repo |
| `GraphModel.MergeFunction` | knowledge.py:220-245 | the Function merge preserves the invariant that every DECLARES edge joins existing nodes; an existing Function keeps its `file`, a new one gets the declaring path |
| `GraphModel.MergeClass` | knowledge.py:247-272 | the Class merge preserves the graph invariant; an existing Class keeps its `file`, a new one gets the declaring path |
| `GraphModel.MergeImport` | knowledge.py:274-285 | the IMPORTS merge preserves the graph invariant |
| `GraphModel.MergeCall` | knowledge.py:287-298 | the CALLS merge preserves the graph invariant |
| `GraphModel.MergeInherits` | knowledge.py:300-311 | the INHERITS merge preserves the graph invariant |
| `GraphModel.MergeExternalImport` | knowledge.py:313-322 | the external IMPORTS merge preserves the graph invariant |
| `GraphModel.FileNeedsRepo` | knowledge.py:205-218 | a File exists after the merge exactly when it existed or its Repo exists; existing Files keep their attributes; a new File gets the given module and repo |
| `GraphModel.ExternalWithoutSource` | knowledge.py:313-322 | the ExternalModule node is merged even when the importing File is missing; the edge then is not |
| `GraphModel.NodeMergesIdempotent` | knowledge.py:194-272 | repeating a Repo, File, Function or Class write with the same arguments changes nothing |
| `GraphModel.EdgeMergesIdempotent` | knowledge.py:274-322 | repeating a relationship write changes nothing, so no edge is duplicated |
| `GraphModel.UpsertKeys` | knowledge.py:224-232 | after a run of upserts a key is present exactly when it was before or some upsert has it |
| `GraphModel.UpsertKeepsFirst` | knowledge.py:224-230 | the first upsert of a new key fixes every attribute except `code` |
| `GraphModel.UpsertTakesLastCode` | knowledge.py:231-232 | the last upsert of a key decides its `code` |
| `GraphModel.UpsertConvergence` | knowledge.py:220-272 | after any run of upserts there is one node per key: name, line, file and repo come from the first upsert, code from the last |
| `GraphModel.UpsertTwiceExample` | knowledge.py:224-232 | creating the same key twice keeps the first node's attributes and takes the second code |
| `GraphStore.Store.constructor` | knowledge.py:174-175 | connecting gives a store that holds whatever the database held before, for example an earlier build |
| `GraphStore.Store.ClearDatabase` | knowledge.py:189-192 | the store becomes the empty graph |
| `GraphStore.Store.CreateRepoNode` | knowledge.py:194-203 | the new state is the Repo merge of the old one |
| `GraphStore.Store.CreateFileNode` | knowledge.py:205-218 | the new state is the File merge of the old one |
| `GraphStore.Store.CreateFunctionNode` | knowledge.py:220-245 | the new state is the Function merge of the old one |
| `GraphStore.Store.CreateClassNode` | knowledge.py:247-272 | the new state is the Class merge of the old one |
| `GraphStore.Store.CreateImportEdge` | knowledge.py:274-285 | the new state is the IMPORTS merge of the old one |
| `GraphStore.Store.CreateCallEdge` | knowledge.py:287-298 | the new state is the CALLS merge of the old one |
| `GraphStore.Store.CreateInheritsEdge` | knowledge.py:300-311 | the new state is the INHERITS merge of the old one |
| `GraphStore.Store.CreateExternalImportEdge` | knowledge.py:313-322 | the new state is the external IMPORTS merge of the old one |
| `Pipeline.ParseFile` | knowledge.py:349-355 | a `parsed_files` entry holds well-formed dicts of `FunctionDef` and `ClassDef` nodes |
| `Pipeline.Pass1` | knowledge.py:334-337 | pass 1 preserves the graph invariant and writes only Repos, Files and CONTAINS edges |
| `Pipeline.DeclareFunctions` | knowledge.py:356-359 | the invariant is kept; each function key gets its qualified node and, when the File exists, its DECLARES edge; only functions and their edges change; new nodes and edges belong to this file |
| `Pipeline.DeclareClasses` | knowledge.py:360-363 | the same guarantees for the class keys |
| `Pipeline.Pass2` | knowledge.py:345-365 | the invariant is kept; only nodes and DECLARES edges change; existing keys stay |
| `Pipeline.Pass2FromParsed` | knowledge.py:345-366 | every node and DECLARES edge pass 2 adds comes from a file that parses; a file whose parse fails adds nothing |
| `Pipeline.ParsedFiles` | knowledge.py:345-355 | `parsed_files` is well formed and its keys are exactly the paths of the files that parse |
| `Pipeline.LinkImports` | knowledge.py:371-378 | the IMPORTS writes of a file preserve the graph invariant |
| `Pipeline.LinkCallsFrom` | knowledge.py:383-388 | the CALLS writes of a function preserve the graph invariant |
| `Pipeline.LinkCalls` | knowledge.py:381-388 | the CALLS writes of a file preserve the graph invariant |
| `Pipeline.LinkBases` | knowledge.py:393-398 | the INHERITS writes of a class preserve the graph invariant |
| `Pipeline.LinkInherits` | knowledge.py:390-398 | the INHERITS writes of a file preserve the graph invariant |
| `Pipeline.LinkFile` | knowledge.py:369-398 | the pass-3 writes of a file preserve the graph invariant |
| `Pipeline.Pass3` | knowledge.py:369-398 | pass 3 preserves the graph invariant |
| `PipelineProperties.AdmitUnion` | knowledge.py:274-322 | attempting two batches of writes in a row is attempting their union, so order does not matter |
| `PipelineProperties.AdmitNothing` | knowledge.py:274-322 | attempting nothing leaves the graph unchanged |
| `PipelineProperties.LinkImportAdmits` | knowledge.py:371-378 | one import record writes exactly what its attempted link admits |
| `PipelineProperties.LinkImportsAdmits` | knowledge.py:371-378 | a file's IMPORTS pass writes exactly what its attempted links admit |
| `PipelineProperties.ImportLinks` | knowledge.py:371-378 | the import pass attempts no CALLS or INHERITS edge |
| `PipelineProperties.ImportLinksMembers` | knowledge.py:371-378 | the import pass attempts an edge to a file exactly for an indexed import, and an external edge and node exactly for an unindexed import outside the file's first segment |
| `PipelineProperties.ImportLinksExternal` | knowledge.py:375-378 | an ExternalModule and an external IMPORTS edge are attempted exactly for the imports classified as external |
| `PipelineProperties.ImportLinksInternal` | knowledge.py:371-374 | a file-to-file IMPORTS edge is attempted exactly for the imports the index resolves |
| `PipelineProperties.CallLinks` | knowledge.py:381-388 | the call pass attempts only CALLS edges |
| `PipelineProperties.LinkCallsFromAdmits` | knowledge.py:383-388 | one function's CALLS writes are exactly what its attempted links admit |
| `PipelineProperties.LinkCallsAdmits` | knowledge.py:381-388 | a file's CALLS writes are exactly what its attempted links admit |
| `PipelineProperties.CallLinksMembers` | knowledge.py:381-388 | a CALLS edge is attempted exactly from a function of the file to a same-file function whose name it calls |
| `PipelineProperties.LinkBasesAdmits` | knowledge.py:393-398 | one class's INHERITS writes are exactly what its attempted links admit |
| `PipelineProperties.InheritLinks` | knowledge.py:390-398 | the inheritance pass attempts only INHERITS edges |
| `PipelineProperties.LinkInheritsAdmits` | knowledge.py:390-398 | a file's INHERITS writes are exactly what its attempted links admit |
| `PipelineProperties.InheritLinksMembers` | knowledge.py:390-398 | an INHERITS edge is attempted exactly from a class of the file to each of its base names that is a module identifier |
| `PipelineProperties.LinkFileAdmits` | knowledge.py:369-398 | a file's pass-3 writes are exactly what its attempted links admit |
| `PipelineProperties.FileImportLinks` | knowledge.py:371-378 | what a parsed file attempts through its imports: edges to indexed files and to external names, and external nodes |
| `PipelineProperties.FileCallLinks` | knowledge.py:381-388 | a parsed file attempts exactly its same-file calls |
| `PipelineProperties.FileInheritLinks` | knowledge.py:390-398 | a parsed file attempts exactly the inheritance edges that pass the module-identifier gate |
| `PipelineProperties.Pass3Admits` | knowledge.py:369-398 | pass 3 writes exactly what the union of all files' attempted links admits |
| `PipelineProperties.BuildAdmits` | knowledge.py:326-402 | the built graph is the graph after pass 2 plus what the union of all attempts admits |
| `PipelineProperties.BuildKeepsNodes` | knowledge.py:369-398 | pass 3 adds no Repo, File, Function or Class node and no CONTAINS or DECLARES edge |
| `PipelineProperties.BuildImportShape` | knowledge.py:371-378 | the final IMPORTS edges and ExternalModules are exactly the admitted attempts |
| `PipelineProperties.BuildCallInheritShape` | knowledge.py:381-398 | the final CALLS and INHERITS edges are exactly the admitted attempts |
| `PipelineProperties.Pass1Nodes` | knowledge.py:334-337 | after pass 1 the Repos are the discovered repository names and the Files are the discovered paths |
| `PipelineProperties.Pass1Repos` | knowledge.py:334-336 | pass 1 adds exactly the repository names of the discovered files as Repos |
| `PipelineProperties.Pass1FileKeys` | knowledge.py:334-337 | pass 1 adds exactly the paths of the discovered files as Files |
| `PipelineProperties.Pass2Declares` | knowledge.py:345-365 | every key of a parsed file gets its qualified node and DECLARES edge in pass 2 |
| `PipelineProperties.AfterPass2Facts` | knowledge.py:334-365 | after pass 2 the graph satisfies the invariant, has the discovered Repos and Files, no pass-3 edge, and everything added comes from parsed files |
| `PipelineProperties.ParsedFileDeclared` | knowledge.py:345-365 | every function and class of a parsed file is in the final graph with its DECLARES edge |
| `PipelineProperties.BuildValid` | knowledge.py:326-402 | the built graph satisfies the graph invariant: every relationship joins existing nodes |
| `PipelineProperties.BuildNodes` | knowledge.py:334-337 | the final Repos and Files are the discovered ones, parsed or not |
| `PipelineProperties.BuildFromParsed` | knowledge.py:345-366 | a file whose parse fails has no Function or Class node, no DECLARES edge and no outgoing IMPORTS edge |
| `PipelineProperties.BuildCalls` | knowledge.py:381-388 | a CALLS edge exists exactly when, in some parsed file, one function calls the name of another function of the same file |
| `PipelineProperties.BuildCallsSound` | knowledge.py:381-388 | every CALLS edge comes from a same-file call in some parsed file |
| `PipelineProperties.BuildCallsComplete` | knowledge.py:381-388 | every same-file call of a parsed file gives its CALLS edge |
| `PipelineProperties.BuildImportsSound` | knowledge.py:371-374 | every file-to-file IMPORTS edge comes from an indexed import of a parsed file |
| `PipelineProperties.BuildImportsComplete` | knowledge.py:371-374 | every indexed import of a parsed file gives its file-to-file IMPORTS edge |
| `PipelineProperties.BuildImports` | knowledge.py:371-374 | a file-to-file IMPORTS edge exists exactly for the indexed imports of parsed files |
| `PipelineProperties.BuildExternalImports` | knowledge.py:375-378 | an external IMPORTS edge exists exactly for the unindexed imports of a parsed file that fall outside its first segment |
| `PipelineProperties.BuildExternalImportsSound` | knowledge.py:375-378 | every external IMPORTS edge comes from an import of a parsed file classified as external |
| `PipelineProperties.BuildExternalImportsComplete` | knowledge.py:375-378 | every import of a parsed file classified as external gives its external IMPORTS edge |
| `PipelineProperties.BuildExternalModules` | knowledge.py:375-378 | the ExternalModule nodes are exactly the names some parsed file imports as external |
| `PipelineProperties.BuildInherits` | knowledge.py:390-398 | an INHERITS edge exists exactly when a parsed class names a base that is a module identifier and is also an existing Class |
| `PipelineProperties.SameModuleBaseNotLinked` | knowledge.py:393-398 | `class Child(Base)` next to `class Base` gets no INHERITS edge |
| `PipelineProperties.PrefixTestDropsLookalike` | knowledge.py:375-378 | from `repoA.main`, `repoAB.x` is neither resolved nor external, so no edge is written |
| `PipelineProperties.OtherPackageIsExternal` | knowledge.py:375-378 | from `repoA.main`, `os.path` is external |
| `PipelineProperties.IndexedModuleResolves` | knowledge.py:373-374 | an indexed module resolves to its file's path string |
| `KnowledgeGraph.CreateFileNodes` | knowledge.py:334-337 | the pass-1 loop leaves the store in the state `Pass1` describes |
| `KnowledgeGraph.DeclareFileFunctions` | knowledge.py:356-359 | the function loop of a file leaves the store as `DeclareFunctions` says |
| `KnowledgeGraph.DeclareFileClasses` | knowledge.py:360-363 | the class loop of a file leaves the store as `DeclareClasses` says |
| `KnowledgeGraph.ParseAll` | knowledge.py:345-365 | the pass-2 loop leaves the store as `Pass2` says and fills `parsed_files` as `ParsedFiles` says |
| `KnowledgeGraph.LinkImportRecord` | knowledge.py:371-378 | one import record leaves the store as `LinkImport` says: an edge to the indexed file, an ExternalModule edge, or nothing |
| `KnowledgeGraph.LinkFileImports` | knowledge.py:371-378 | the import loop of a file leaves the store as `LinkImports` says |
| `KnowledgeGraph.LinkFunctionCalls` | knowledge.py:384-388 | the loop over a function's call-name set, in any order, leaves the store as `LinkCallsFrom` says |
| `KnowledgeGraph.LinkFileCalls` | knowledge.py:381-388 | the call loop of a file leaves the store as `LinkCalls` says |
| `KnowledgeGraph.LinkFileInherits` | knowledge.py:390-398 | the inheritance loops of a file leave the store as `LinkInherits` says |
| `KnowledgeGraph.LinkFileEdges` | knowledge.py:369-398 | the body of the pass-3 loop leaves the store as `LinkFile` says: imports, then calls, then inheritance |
| `KnowledgeGraph.LinkAll` | knowledge.py:369-398 | the pass-3 loop leaves the store as `Pass3` says |
| `KnowledgeGraph.BuildKnowledgeGraph` | knowledge.py:326-402 | whatever the database held before, `main` (which clears it first) leaves it in exactly the state `Build` describes |
| `Schema.Keys` | app.py:37 | the keys of a dict, one per entry and in order |
| `Schema.CleanSchema` | app.py:32-46 | a non-dict value is returned unchanged; a dict stays a dict |
| `Schema.CleanMembers` | app.py:36-46 | the result has at most as many entries as the input and no banned key survives |
| `Schema.CleanMembersKeys` | app.py:37-45 | a key is in the cleaned dict exactly when the input has it and it is neither `additionalProperties` nor `$schema` |
| `Schema.CleanMembersConcat` | app.py:37-45 | cleaning works entry by entry, so entry order is kept |
| `Schema.CleanMembersGet` | app.py:37-45 | a lookup in the cleaned dict misses for `additionalProperties` and `$schema` and otherwise gives the cleaned original value; keys stay unique |
| `Schema.ListValue` | app.py:42-43 | a list keeps its length; a dict element is cleaned and any other element, including a nested list, is kept as is |
| `Schema.NestedListKept` | app.py:34-35 | a list nested in a list is not descended into, so banned keys inside it survive |
| `Schema.NestedBannedRemoved` | app.py:38-43 | banned keys inside nested dicts, and inside dicts in lists, are removed |
| `Schema.CleanSchemaIsClean` | app.py:32-46 | the output has no banned key anywhere the filter reaches |
| `Schema.CleanMembersAreClean` | app.py:37-45 | every value of a cleaned dict is clean |
| `Schema.CleanValueIsClean` | app.py:40-45 | a cleaned value is clean |
| `Schema.CleanSchemaKeepsClean` | app.py:32-46 | a clean value is returned unchanged |
| `Schema.CleanMembersKeepClean` | app.py:37-45 | a dict with no banned key and clean values is kept entry for entry |
| `Schema.CleanValueKeepsClean` | app.py:40-45 | a clean value is copied unchanged |
| `Schema.CleanSchemaFixpoints` | app.py:32-46 | the filter leaves a value unchanged exactly when the value is clean |
| `Schema.CleanSchemaIdempotent` | app.py:32-46 | cleaning twice is the same as cleaning once |

## Left out

- Neo4j itself is not modelled: the driver, sessions, the Cypher text, `close`, and the connection made at import time (`knowledge.py:6`, `13`, `174-187`). The database is the in-memory `Store`, and each query is the set-level effect of its `MERGE`/`MATCH`. A database error is not modelled.
- File-system access is not modelled: `Path.iterdir`, `os.walk`, and reading a file. The directory listing is the parameter `listing`, in the order the walk yields it. A symbolic link, permission error or race is outside the model.
- `ast.parse`, `ast.get_source_segment` and `textwrap.dedent` are not modelled. Reading and parsing a file is the parameter `parse`, which gives a tree or a failure. The source text of a declaration is an opaque string carried by its node.
- The failure of a single file's parse is modelled as a whole: the file gets no entry and no nodes. A database write that raises partway through the loop of the `try` block is not modelled.
- `Strings.Lower` lowers only ASCII letters. Python's `str.lower` also folds non-ASCII characters, which no `.py` ending can contain.
- `ast.walk` order is modelled breadth-first over `ast.iter_child_nodes`. The `PyAst.Node` datatype keeps only the node kinds the builder inspects; every other node is `Other` with its children.
- The iteration order of a Python `set` (the call names of a function) is left open. `KnowledgeGraph.LinkFunctionCalls` is proved for every order.
- Progress bars (`tqdm`) and printing are not modelled.
- `Schema.Json` is a JSON-like value:
  - numbers are integers;
  - a dict is a list of entries in insertion order;
  - other Python objects a schema could hold are not modelled.
- `app.py` apart from `clean_schema` is not part of this model: the Streamlit UI, the event-loop helper, the MCP client and the Gemini calls.
- `graph_tool.py`, `verify_graph.py` and `dspy_files/` are not part of this model. They are language-model calls, HTTP fetches and read-only queries.
