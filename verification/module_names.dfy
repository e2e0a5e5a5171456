/**
 * Source discovery: which files of the corpus are Python files, and the
 * dotted module identifier each one gets from its place below its
 * repository folder (`get_module_name`, `collect_python_files`).
 */
module ModuleNames {
  import opened Strings

  /** A filesystem path as the sequence of its parts (`Path.parts`). */
  type Path = seq<string>

  /** `str(path)`. */
  function PathString(p: Path): string
  {
    Join("/", p)
  }

  /** `path.name`: the last part, or "" for the empty path. */
  function PathName(p: Path): string
  {
    if p == [] then "" else p[|p| - 1]
  }

  predicate IsPrefix(a: Path, b: Path)
  {
    |a| <= |b| && b[..|a|] == a
  }

  /**
   * `get_module_name(repo_root, file_path)`: the repository folder's name
   * followed by the parts of the file's path relative to it, the last part
   * without its last suffix, joined by dots. `None` stands for the
   * `ValueError` Python raises when the file does not lie below the root
   * (`relative_to`) or is the root itself (`with_suffix` on an empty name).
   */
  function GetModuleName(repoRoot: Path, filePath: Path): Option<string>
  {
    if !IsPrefix(repoRoot, filePath) || |filePath| == |repoRoot| then None
    else
      var rel := filePath[|repoRoot|..];
      var parts := [PathName(repoRoot)] + rel[..|rel| - 1] + [StripSuffix(rel[|rel| - 1])];
      Some(Join(".", parts))
  }

  /** The module name exists exactly for the files strictly below the root. */
  lemma GetModuleNameDefined(repoRoot: Path, filePath: Path)
    ensures GetModuleName(repoRoot, filePath).Some? <==>
      IsPrefix(repoRoot, filePath) && filePath != repoRoot
  {
  }

  /**
   * The module name splits at its dots into the repository folder's name,
   * the directories down to the file and the file's stem, when none of those
   * holds a dot of its own.
   */
  lemma ModuleNameParts(repoRoot: Path, dirs: seq<string>, fname: string)
    requires '.' !in PathName(repoRoot) && '.' !in StripSuffix(fname)
    requires forall i :: 0 <= i < |dirs| ==> '.' !in dirs[i]
    ensures GetModuleName(repoRoot, repoRoot + dirs + [fname]).Some?
    ensures SplitDots(GetModuleName(repoRoot, repoRoot + dirs + [fname]).value) ==
            [PathName(repoRoot)] + dirs + [StripSuffix(fname)]
  {
    var filePath := repoRoot + dirs + [fname];
    assert filePath[..|repoRoot|] == repoRoot;
    var rel := filePath[|repoRoot|..];
    assert rel == dirs + [fname];
    assert rel[..|rel| - 1] == dirs;
    var parts := [PathName(repoRoot)] + dirs + [StripSuffix(fname)];
    assert forall i :: 0 <= i < |parts| ==> '.' !in parts[i] by {
      forall i | 0 <= i < |parts| ensures '.' !in parts[i] {
        if 0 < i < |parts| - 1 {
          assert parts[i] == dirs[i - 1];
        }
      }
    }
    SplitDotsJoin(parts);
  }

  /** The worked example of the source: `normalized_repos/repoA/subpkg/helper.py`
      below `normalized_repos/repoA` is module `repoA.subpkg.helper`. */
  lemma ModuleNameExample()
    ensures GetModuleName(["normalized_repos", "repoA"],
                          ["normalized_repos", "repoA", "subpkg", "helper.py"]) ==
            Some("repoA.subpkg.helper")
  {
    var root: Path := ["normalized_repos", "repoA"];
    var filePath: Path := ["normalized_repos", "repoA", "subpkg", "helper.py"];
    assert filePath[..2] == root;
    var rel := filePath[2..];
    assert rel == ["subpkg", "helper.py"] && rel[..1] == ["subpkg"];
    assert LastDot("helper.py") == Some(6);
    assert StripSuffix("helper.py") == "helper";
    var parts := [PathName(root)] + rel[..1] + [StripSuffix(rel[1])];
    assert parts == ["repoA", "subpkg", "helper"];
    assert Join(".", ["repoA", "subpkg", "helper"]) == "repoA" + "." + ("subpkg" + "." + "helper");
    assert GetModuleName(root, filePath) == Some(Join(".", parts));
    assert "repoA" + "." + ("subpkg" + "." + "helper") == "repoA.subpkg.helper";
  }

  /** Only the last suffix goes: `pkg/data.tar.gz` is module `repo.pkg.data.tar`. */
  lemma LastSuffixOnlyExample()
    ensures GetModuleName(["repo"], ["repo", "pkg", "data.tar.gz"]) == Some("repo.pkg.data.tar")
  {
    var root: Path := ["repo"];
    var filePath: Path := ["repo", "pkg", "data.tar.gz"];
    assert filePath[..1] == root;
    var rel := filePath[1..];
    assert rel == ["pkg", "data.tar.gz"] && rel[..1] == ["pkg"];
    assert LastDot("data.tar.gz") == Some(8);
    assert StripSuffix("data.tar.gz") == "data.tar";
    var parts := [PathName(root)] + rel[..1] + [StripSuffix(rel[1])];
    assert parts == ["repo", "pkg", "data.tar"];
    assert Join(".", ["repo", "pkg", "data.tar"]) == "repo" + "." + ("pkg" + "." + "data.tar");
    assert GetModuleName(root, filePath) == Some(Join(".", parts));
    assert "repo" + "." + ("pkg" + "." + "data.tar") == "repo.pkg.data.tar";
  }

  /** Module identifiers are not unique: a dotted directory name and a nested
      directory give the same identifier to two different files. */
  lemma ModuleNameCollision()
    ensures GetModuleName(["repo"], ["repo", "a.b", "c.py"]) ==
            GetModuleName(["repo"], ["repo", "a", "b", "c.py"]) == Some("repo.a.b.c")
  {
    var root: Path := ["repo"];
    var p1: Path := ["repo", "a.b", "c.py"];
    var p2: Path := ["repo", "a", "b", "c.py"];
    assert p1[..1] == root && p2[..1] == root;
    var rel1, rel2 := p1[1..], p2[1..];
    assert rel1 == ["a.b", "c.py"] && rel1[..1] == ["a.b"];
    assert rel2 == ["a", "b", "c.py"] && rel2[..2] == ["a", "b"];
    assert LastDot("c.py") == Some(1);
    assert StripSuffix("c.py") == "c";
    var parts1 := [PathName(root)] + rel1[..1] + [StripSuffix(rel1[1])];
    var parts2 := [PathName(root)] + rel2[..2] + [StripSuffix(rel2[2])];
    assert parts1 == ["repo", "a.b", "c"];
    assert parts2 == ["repo", "a", "b", "c"];
    assert Join(".", ["repo", "a.b", "c"]) == "repo" + "." + ("a.b" + "." + "c");
    assert Join(".", ["repo", "a", "b", "c"]) == "repo" + "." + ("a" + "." + ("b" + "." + "c"));
    assert GetModuleName(root, p1) == Some(Join(".", parts1));
    assert GetModuleName(root, p2) == Some(Join(".", parts2));
    assert "repo" + "." + ("a.b" + "." + "c") == "repo.a.b.c";
    assert "repo" + "." + ("a" + "." + ("b" + "." + "c")) == "repo.a.b.c";
  }

  /** One file `os.walk` finds below a repository folder: the directories from
      the folder down to it, and the file's name. */
  datatype WalkedFile = WalkedFile(dirs: seq<string>, fname: string)

  /** One entry of `normalized_base.iterdir()`; for a directory, `files` lists
      what `os.walk` yields below it, in walk order. */
  datatype BaseEntry = BaseEntry(name: string, isDir: bool, files: seq<WalkedFile>)

  /** One element of `all_files`: `(repo_name, file_path, module_name)`. */
  datatype FileRecord = FileRecord(repo: string, path: Path, moduleId: string)

  /** The record `collect_python_files` makes for file `f` of repository `repo`. */
  function Record(base: Path, repo: string, f: WalkedFile): (t: FileRecord)
    ensures t.repo == repo && t.path == base + [repo] + f.dirs + [f.fname]
    ensures GetModuleName(base + [repo], t.path) == Some(t.moduleId)
  {
    var repoDir := base + [repo];
    var filePath := repoDir + f.dirs + [f.fname];
    assert filePath[..|repoDir|] == repoDir;
    FileRecord(repo, filePath, GetModuleName(repoDir, filePath).value)
  }

  /** The records for the Python files among `files` of repository `repo`. */
  function RepoFiles(base: Path, repo: string, files: seq<WalkedFile>): seq<FileRecord>
  {
    if files == [] then []
    else
      var prev := RepoFiles(base, repo, files[..|files| - 1]);
      var f := files[|files| - 1];
      if IsPythonFileName(f.fname) then prev + [Record(base, repo, f)] else prev
  }

  /** The records for every Python file of every repository directory. */
  function PythonFiles(base: Path, listing: seq<BaseEntry>): seq<FileRecord>
  {
    if listing == [] then []
    else
      var prev := PythonFiles(base, listing[..|listing| - 1]);
      var e := listing[|listing| - 1];
      if e.isDir then prev + RepoFiles(base, e.name, e.files) else prev
  }

  /** `collect_python_files(normalized_base)` over a directory listing. */
  method CollectPythonFiles(base: Path, listing: seq<BaseEntry>) returns (allFiles: seq<FileRecord>)
    ensures allFiles == PythonFiles(base, listing)
  {
    allFiles := [];
    for i := 0 to |listing|
      invariant allFiles == PythonFiles(base, listing[..i])
    {
      assert listing[..i + 1][..i] == listing[..i];
      var entry := listing[i];
      if !entry.isDir {
        continue;
      }
      var repoName := entry.name;
      ghost var before := allFiles;
      for j := 0 to |entry.files|
        invariant allFiles == before + RepoFiles(base, repoName, entry.files[..j])
      {
        assert entry.files[..j + 1][..j] == entry.files[..j];
        var f := entry.files[j];
        if IsPythonFileName(f.fname) {
          var filePath := base + [repoName] + f.dirs + [f.fname];
          var moduleName := GetModuleName(base + [repoName], filePath);
          assert filePath[..|base + [repoName]|] == base + [repoName];
          allFiles := allFiles + [FileRecord(repoName, filePath, moduleName.value)];
        }
      }
      assert entry.files[..|entry.files|] == entry.files;
    }
    assert listing[..|listing|] == listing;
  }

  lemma {:induction false} RepoFilesMembers(base: Path, repo: string, files: seq<WalkedFile>, t: FileRecord)
    ensures t in RepoFiles(base, repo, files) <==>
      exists j :: 0 <= j < |files| && IsPythonFileName(files[j].fname) && t == Record(base, repo, files[j])
  {
    if files != [] {
      var init := files[..|files| - 1];
      RepoFilesMembers(base, repo, init, t);
      if t in RepoFiles(base, repo, files) && t !in RepoFiles(base, repo, init) {
        var j := |files| - 1;
        assert IsPythonFileName(files[j].fname) && t == Record(base, repo, files[j]);
      }
      if exists j :: 0 <= j < |files| && IsPythonFileName(files[j].fname) && t == Record(base, repo, files[j]) {
        var j :| 0 <= j < |files| && IsPythonFileName(files[j].fname) && t == Record(base, repo, files[j]);
        if j < |files| - 1 {
          assert init[j] == files[j];
        }
      }
    }
  }

  /**
   * Discovery yields exactly one kind of record: for a file of a directory
   * entry whose name passes the `.py` filter, with the entry's name as
   * repository, the file's full path, and the module name of that path
   * below the repository folder.
   */
  lemma {:induction false} PythonFilesMembers(base: Path, listing: seq<BaseEntry>, t: FileRecord)
    ensures t in PythonFiles(base, listing) <==>
      exists i, j :: 0 <= i < |listing| && listing[i].isDir && 0 <= j < |listing[i].files| &&
        IsPythonFileName(listing[i].files[j].fname) &&
        t == Record(base, listing[i].name, listing[i].files[j])
  {
    if t in PythonFiles(base, listing) {
      PythonFilesSound(base, listing, t);
    }
    if exists i, j :: 0 <= i < |listing| && listing[i].isDir && 0 <= j < |listing[i].files| &&
        IsPythonFileName(listing[i].files[j].fname) && t == Record(base, listing[i].name, listing[i].files[j]) {
      var i, j :| 0 <= i < |listing| && listing[i].isDir && 0 <= j < |listing[i].files| &&
        IsPythonFileName(listing[i].files[j].fname) && t == Record(base, listing[i].name, listing[i].files[j]);
      PythonFilesComplete(base, listing, i, j);
    }
  }

  /** Every discovered record comes from a Python file of a directory entry. */
  lemma {:induction false} PythonFilesSound(base: Path, listing: seq<BaseEntry>, t: FileRecord)
    requires t in PythonFiles(base, listing)
    ensures exists i, j ::
      0 <= i < |listing| && listing[i].isDir && 0 <= j < |listing[i].files| &&
      IsPythonFileName(listing[i].files[j].fname) &&
      t == Record(base, listing[i].name, listing[i].files[j])
  {
    var init := listing[..|listing| - 1];
    var e := listing[|listing| - 1];
    if t in PythonFiles(base, init) {
      PythonFilesSound(base, init, t);
      var i, j :| 0 <= i < |init| && init[i].isDir && 0 <= j < |init[i].files| &&
        IsPythonFileName(init[i].files[j].fname) && t == Record(base, init[i].name, init[i].files[j]);
      assert listing[i] == init[i];
    } else {
      assert e.isDir && t in RepoFiles(base, e.name, e.files);
      RepoFilesMembers(base, e.name, e.files, t);
      var j :| 0 <= j < |e.files| && IsPythonFileName(e.files[j].fname) && t == Record(base, e.name, e.files[j]);
      assert listing[|listing| - 1] == e;
    }
  }

  /** Every Python file of a directory entry is discovered. */
  lemma {:induction false} PythonFilesComplete(base: Path, listing: seq<BaseEntry>, i: int, j: int)
    requires 0 <= i < |listing| && listing[i].isDir && 0 <= j < |listing[i].files|
    requires IsPythonFileName(listing[i].files[j].fname)
    ensures Record(base, listing[i].name, listing[i].files[j]) in PythonFiles(base, listing)
  {
    var init := listing[..|listing| - 1];
    var e := listing[|listing| - 1];
    var t := Record(base, listing[i].name, listing[i].files[j]);
    if i < |listing| - 1 {
      assert init[i] == listing[i];
      PythonFilesComplete(base, init, i, j);
    } else {
      RepoFilesMembers(base, e.name, e.files, t);
    }
  }

  /** Every discovered module identifier is the repository name, a dot and
      the rest of the path; so its first dot-segment is the repository name's
      first dot-segment. */
  lemma RecordModulePrefix(base: Path, repo: string, f: WalkedFile)
    ensures StartsWith(Record(base, repo, f).moduleId, repo + ".")
    ensures FirstSegment(Record(base, repo, f).moduleId) == FirstSegment(repo)
  {
    var t := Record(base, repo, f);
    var repoDir := base + [repo];
    var rel := t.path[|repoDir|..];
    var parts := [repo] + rel[..|rel| - 1] + [StripSuffix(rel[|rel| - 1])];
    assert PathName(repoDir) == repo;
    assert |parts| >= 2;
    var rest := Join(".", parts[1..]);
    assert t.moduleId == repo + "." + rest;
    assert (repo + "." + rest)[..|repo + "."|] == repo + ".";
    FirstSegmentPrefix(repo, rest);
  }

  /** The first dot-segment of `a + "." + b` is the first dot-segment of `a`. */
  lemma {:induction false} FirstSegmentPrefix(a: string, b: string)
    ensures FirstSegment(a + "." + b) == FirstSegment(a)
  {
    if a != [] && a[0] != '.' {
      assert (a + "." + b)[1..] == a[1..] + "." + b;
      FirstSegmentPrefix(a[1..], b);
    }
  }
}
