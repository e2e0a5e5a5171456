/**
 * The repository-wide index (`build_repo_index`): module identifier to file
 * and file to module identifier, filled in discovery order so that a later
 * record for the same key replaces an earlier one.
 */
module RepoIndex {
  import opened Strings
  import opened ModuleNames

  /** `module_to_file` after the given records. */
  function ModuleToFile(files: seq<FileRecord>): map<string, Path>
  {
    if files == [] then map[]
    else
      var last := files[|files| - 1];
      ModuleToFile(files[..|files| - 1])[last.moduleId := last.path]
  }

  /** `file_to_module` after the given records. */
  function FileToModule(files: seq<FileRecord>): map<Path, string>
  {
    if files == [] then map[]
    else
      var last := files[|files| - 1];
      FileToModule(files[..|files| - 1])[last.path := last.moduleId]
  }

  /** `build_repo_index(all_files)`. */
  method BuildRepoIndex(allFiles: seq<FileRecord>)
    returns (moduleToFile: map<string, Path>, fileToModule: map<Path, string>)
    ensures moduleToFile == ModuleToFile(allFiles)
    ensures fileToModule == FileToModule(allFiles)
  {
    moduleToFile, fileToModule := map[], map[];
    for i := 0 to |allFiles|
      invariant moduleToFile == ModuleToFile(allFiles[..i])
      invariant fileToModule == FileToModule(allFiles[..i])
    {
      assert allFiles[..i + 1][..i] == allFiles[..i];
      var record := allFiles[i];
      moduleToFile := moduleToFile[record.moduleId := record.path];
      fileToModule := fileToModule[record.path := record.moduleId];
    }
    assert allFiles[..|allFiles|] == allFiles;
  }

  /**
   * Every discovered module identifier is a key of `module_to_file`, nothing
   * else is, and its file is the one of the last record with that identifier.
   */
  lemma {:induction false} ModuleToFileLastWins(files: seq<FileRecord>, m: string)
    ensures m in ModuleToFile(files) <==> exists i :: 0 <= i < |files| && files[i].moduleId == m
    ensures m in ModuleToFile(files) ==>
      exists i :: 0 <= i < |files| && files[i].moduleId == m && files[i].path == ModuleToFile(files)[m] &&
        forall j :: i < j < |files| ==> files[j].moduleId != m
  {
    if files != [] {
      var init, last := files[..|files| - 1], files[|files| - 1];
      ModuleToFileLastWins(init, m);
      if last.moduleId != m {
        if exists i :: 0 <= i < |files| && files[i].moduleId == m {
          var i :| 0 <= i < |files| && files[i].moduleId == m;
          assert init[i] == files[i];
        }
        if m in ModuleToFile(files) {
          var i :| 0 <= i < |init| && init[i].moduleId == m && init[i].path == ModuleToFile(init)[m] &&
            forall j :: i < j < |init| ==> init[j].moduleId != m;
          assert files[i] == init[i];
          assert forall j :: i < j < |files| ==> files[j].moduleId != m by {
            forall j | i < j < |files| ensures files[j].moduleId != m {
              if j < |init| {
                assert files[j] == init[j];
              }
            }
          }
        }
      }
    }
  }

  /** Every discovered path is a key of `file_to_module`, nothing else is, and
      its module identifier is the one of the last record for that path. */
  lemma {:induction false} FileToModuleLastWins(files: seq<FileRecord>, p: Path)
    ensures p in FileToModule(files) <==> exists i :: 0 <= i < |files| && files[i].path == p
    ensures p in FileToModule(files) ==>
      exists i :: 0 <= i < |files| && files[i].path == p && files[i].moduleId == FileToModule(files)[p]
  {
    if files != [] {
      var init, last := files[..|files| - 1], files[|files| - 1];
      FileToModuleLastWins(init, p);
      if last.path != p {
        if exists i :: 0 <= i < |files| && files[i].path == p {
          var i :| 0 <= i < |files| && files[i].path == p;
          assert init[i] == files[i];
        }
        if p in FileToModule(files) {
          var i :| 0 <= i < |init| && init[i].path == p && init[i].moduleId == FileToModule(init)[p];
          assert files[i] == init[i];
        }
      }
    }
  }

  /** The records give each path a single module identifier. */
  ghost predicate PathDeterminesModule(files: seq<FileRecord>)
  {
    forall i, j :: 0 <= i < |files| && 0 <= j < |files| && files[i].path == files[j].path ==>
      files[i].moduleId == files[j].moduleId
  }

  /** When paths determine module identifiers, the two maps are inverse on
      the indexed modules: the file of a module maps back to that module. */
  lemma IndexRoundTrip(files: seq<FileRecord>, m: string)
    requires PathDeterminesModule(files)
    requires m in ModuleToFile(files)
    ensures ModuleToFile(files)[m] in FileToModule(files)
    ensures FileToModule(files)[ModuleToFile(files)[m]] == m
  {
    ModuleToFileLastWins(files, m);
    var i :| 0 <= i < |files| && files[i].moduleId == m && files[i].path == ModuleToFile(files)[m] &&
      forall j :: i < j < |files| ==> files[j].moduleId != m;
    FileToModuleLastWins(files, files[i].path);
  }

  /** Discovery always gives each path a single module identifier: the path
      names the repository folder, and the identifier is computed from both. */
  lemma DiscoveryPathDeterminesModule(base: Path, listing: seq<BaseEntry>)
    ensures PathDeterminesModule(PythonFiles(base, listing))
  {
    var files := PythonFiles(base, listing);
    forall i, j | 0 <= i < |files| && 0 <= j < |files| && files[i].path == files[j].path
      ensures files[i].moduleId == files[j].moduleId
    {
      PythonFilesMembers(base, listing, files[i]);
      PythonFilesMembers(base, listing, files[j]);
      var ti, tj := files[i], files[j];
      assert ti.path[|base|] == ti.repo;
      assert tj.path[|base|] == tj.repo;
      assert GetModuleName(base + [ti.repo], ti.path) == Some(ti.moduleId);
      assert GetModuleName(base + [tj.repo], tj.path) == Some(tj.moduleId);
    }
  }
}
