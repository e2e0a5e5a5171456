/**
 * What the graph built by the three passes contains. Pass 3 is described
 * through the links each parsed file attempts: a relationship is written
 * exactly when it is attempted and its endpoints exist, so the order of the
 * attempts does not matter.
 */
module PipelineProperties {
  import opened Strings
  import opened PyAst
  import opened ModuleNames
  import opened UnitParser
  import opened EdgeExtractor
  import opened RepoIndex
  import opened GraphModel
  import opened Pipeline

  /** Attempted writes of pass 3: ExternalModule nodes and relationships. */
  datatype Links = Links(externals: set<string>, importsFile: set<Edge>, importsExternal: set<Edge>,
                         calls: set<Edge>, inherits: set<Edge>)

  function NoLinks(): Links
  {
    Links({}, {}, {}, {}, {})
  }

  function Union(a: Links, b: Links): Links
  {
    Links(a.externals + b.externals, a.importsFile + b.importsFile, a.importsExternal + b.importsExternal,
          a.calls + b.calls, a.inherits + b.inherits)
  }

  /** The edges of `s` whose source is in `from` and whose target is in `to`. */
  function Between(s: set<Edge>, from: set<string>, to: set<string>): set<Edge>
  {
    set e | e in s && e.0 in from && e.1 in to
  }

  /** The edges of `s` whose source is in `from`. */
  function Leaving(s: set<Edge>, from: set<string>): set<Edge>
  {
    set e | e in s && e.0 in from
  }

  /** The graph after the attempted writes: ExternalModule nodes are always
      merged, a relationship only when its endpoints exist. */
  function Admit(g: Graph, l: Links): Graph
  {
    g.(externals := g.externals + l.externals,
       importsFile := g.importsFile + Between(l.importsFile, g.files.Keys, g.files.Keys),
       importsExternal := g.importsExternal + Leaving(l.importsExternal, g.files.Keys),
       calls := g.calls + Between(l.calls, g.functions.Keys, g.functions.Keys),
       inherits := g.inherits + Between(l.inherits, g.classes.Keys, g.classes.Keys))
  }

  /** Attempting two batches one after the other is attempting their union. */
  lemma AdmitUnion(g: Graph, a: Links, b: Links)
    ensures Admit(Admit(g, a), b) == Admit(g, Union(a, b))
  {
  }

  lemma AdmitNothing(g: Graph)
    ensures Admit(g, NoLinks()) == g
  {
    assert Between({}, g.files.Keys, g.files.Keys) == {};
    assert Leaving({}, g.files.Keys) == {};
    assert Between({}, g.functions.Keys, g.functions.Keys) == {};
    assert Between({}, g.classes.Keys, g.classes.Keys) == {};
  }

  // ------------------------------------------------------------ imports

  /** The writes one import record attempts. */
  function ImportLink(path: string, moduleId: string, imp: string, moduleToFile: map<string, Path>): Links
  {
    match Classify(imp, moduleId, moduleToFile)
    case InternalFile(target) => Links({}, {(path, target)}, {}, {}, {})
    case ExternalModule(name) => Links({name}, {}, {(path, name)}, {}, {})
    case Dropped => NoLinks()
  }

  function ImportLinks(path: string, moduleId: string, imports: seq<ImportRecord>, moduleToFile: map<string, Path>): (l: Links)
    ensures l.calls == {} && l.inherits == {}
  {
    if imports == [] then NoLinks()
    else Union(ImportLinks(path, moduleId, imports[..|imports| - 1], moduleToFile),
               ImportLink(path, moduleId, imports[|imports| - 1].name, moduleToFile))
  }

  /** One IMPORTS write between Files is the attempt of that one edge. */
  lemma ImportStepAdmits(g: Graph, path: string, target: string)
    ensures MergeImport(g, path, target) == Admit(g, Links({}, {(path, target)}, {}, {}, {}))
  {
    assert Leaving({}, g.files.Keys) == {};
    assert Between({}, g.functions.Keys, g.functions.Keys) == {};
    assert Between({}, g.classes.Keys, g.classes.Keys) == {};
    assert Between({(path, target)}, g.files.Keys, g.files.Keys) ==
      if path in g.files && target in g.files then {(path, target)} else {};
  }

  /** One external import is the attempt of its ExternalModule and edge. */
  lemma ExternalStepAdmits(g: Graph, path: string, name: string)
    ensures MergeExternalImport(g, path, name) == Admit(g, Links({name}, {}, {(path, name)}, {}, {}))
  {
    assert Between({}, g.files.Keys, g.files.Keys) == {};
    assert Between({}, g.functions.Keys, g.functions.Keys) == {};
    assert Between({}, g.classes.Keys, g.classes.Keys) == {};
    assert Leaving({(path, name)}, g.files.Keys) == if path in g.files then {(path, name)} else {};
  }

  lemma LinkImportAdmits(g: Graph, path: string, moduleId: string, imp: string, moduleToFile: map<string, Path>)
    ensures LinkImport(g, path, moduleId, imp, moduleToFile) == Admit(g, ImportLink(path, moduleId, imp, moduleToFile))
  {
    match Classify(imp, moduleId, moduleToFile)
    case InternalFile(target) => ImportStepAdmits(g, path, target);
    case ExternalModule(name) => ExternalStepAdmits(g, path, name);
    case Dropped => AdmitNothing(g);
  }

  lemma {:induction false} LinkImportsAdmits(g: Graph, path: string, moduleId: string, imports: seq<ImportRecord>,
                                             moduleToFile: map<string, Path>)
    ensures LinkImports(g, path, moduleId, imports, moduleToFile) == Admit(g, ImportLinks(path, moduleId, imports, moduleToFile))
  {
    if imports != [] {
      var init := imports[..|imports| - 1];
      LinkImportsAdmits(g, path, moduleId, init, moduleToFile);
      var h := LinkImports(g, path, moduleId, init, moduleToFile);
      var last := ImportLink(path, moduleId, imports[|imports| - 1].name, moduleToFile);
      LinkImportAdmits(h, path, moduleId, imports[|imports| - 1].name, moduleToFile);
      AdmitUnion(g, ImportLinks(path, moduleId, init, moduleToFile), last);
    }
  }

  /** The file imports the module whose file is `target`. */
  ghost predicate ImportsInternal(imports: seq<ImportRecord>, moduleId: string, moduleToFile: map<string, Path>, target: string)
  {
    exists r :: r in imports && Classify(r.name, moduleId, moduleToFile) == InternalFile(target)
  }

  /** The file imports `name`, classified as external. */
  ghost predicate ImportsExternal(imports: seq<ImportRecord>, moduleId: string, moduleToFile: map<string, Path>, name: string)
  {
    exists r :: r in imports && Classify(r.name, moduleId, moduleToFile) == ExternalModule(name)
  }

  lemma ImportLinksMembers(path: string, moduleId: string, imports: seq<ImportRecord>,
                           moduleToFile: map<string, Path>)
    ensures var l := ImportLinks(path, moduleId, imports, moduleToFile);
      && (forall x :: x in l.externals <==> ImportsExternal(imports, moduleId, moduleToFile, x))
      && (forall e :: e in l.importsFile <==> e.0 == path && ImportsInternal(imports, moduleId, moduleToFile, e.1))
      && (forall e :: e in l.importsExternal <==> e.0 == path && ImportsExternal(imports, moduleId, moduleToFile, e.1))
  {
    ImportLinksExternal(path, moduleId, imports, moduleToFile);
    ImportLinksInternal(path, moduleId, imports, moduleToFile);
  }

  lemma {:induction false} ImportLinksExternal(path: string, moduleId: string, imports: seq<ImportRecord>,
                                               moduleToFile: map<string, Path>)
    ensures var l := ImportLinks(path, moduleId, imports, moduleToFile);
      && (forall x :: x in l.externals <==> ImportsExternal(imports, moduleId, moduleToFile, x))
      && (forall e :: e in l.importsExternal <==> e.0 == path && ImportsExternal(imports, moduleId, moduleToFile, e.1))
  {
    if imports != [] {
      var init, last := imports[..|imports| - 1], imports[|imports| - 1];
      ImportLinksExternal(path, moduleId, init, moduleToFile);
      forall x ensures ImportsExternal(imports, moduleId, moduleToFile, x) <==>
        ImportsExternal(init, moduleId, moduleToFile, x) || Classify(last.name, moduleId, moduleToFile) == ExternalModule(x)
      {
        assert imports == init + [last];
        if ImportsExternal(imports, moduleId, moduleToFile, x) {
          var r :| r in imports && Classify(r.name, moduleId, moduleToFile) == ExternalModule(x);
          if r != last {
            assert r in init;
          }
        }
      }
    }
  }

  lemma {:induction false} ImportLinksInternal(path: string, moduleId: string, imports: seq<ImportRecord>,
                                               moduleToFile: map<string, Path>)
    ensures var l := ImportLinks(path, moduleId, imports, moduleToFile);
      forall e :: e in l.importsFile <==> e.0 == path && ImportsInternal(imports, moduleId, moduleToFile, e.1)
  {
    if imports != [] {
      var init, last := imports[..|imports| - 1], imports[|imports| - 1];
      ImportLinksInternal(path, moduleId, init, moduleToFile);
      forall t ensures ImportsInternal(imports, moduleId, moduleToFile, t) <==>
        ImportsInternal(init, moduleId, moduleToFile, t) || Classify(last.name, moduleId, moduleToFile) == InternalFile(t)
      {
        assert imports == init + [last];
        if ImportsInternal(imports, moduleId, moduleToFile, t) {
          var r :| r in imports && Classify(r.name, moduleId, moduleToFile) == InternalFile(t);
          if r != last {
            assert r in init;
          }
        }
      }
    }
  }

  // ------------------------------------------------------------ calls

  /** The CALLS edges one function attempts. */
  function CallLinksFrom(pf: ParsedFile, k: string): Links
    requires k in pf.funcs.values
  {
    Links({}, {}, {}, set c | c in CallNames(pf.funcs.values[k]) && c in pf.funcs.values ::
                              (Qualify(pf.moduleId, k), Qualify(pf.moduleId, c)), {})
  }

  function CallLinks(pf: ParsedFile, ks: seq<string>): (l: Links)
    requires forall k :: k in ks ==> k in pf.funcs.values
    ensures l.externals == {} && l.importsFile == {} && l.importsExternal == {} && l.inherits == {}
  {
    if ks == [] then NoLinks()
    else Union(CallLinks(pf, ks[..|ks| - 1]), CallLinksFrom(pf, ks[|ks| - 1]))
  }

  lemma LinkCallsFromAdmits(g: Graph, pf: ParsedFile, k: string)
    requires k in pf.funcs.values
    ensures LinkCallsFrom(g, Qualify(pf.moduleId, k), pf, CallNames(pf.funcs.values[k])) == Admit(g, CallLinksFrom(pf, k))
  {
    assert Between({}, g.files.Keys, g.files.Keys) == {};
    assert Leaving({}, g.files.Keys) == {};
    assert Between({}, g.classes.Keys, g.classes.Keys) == {};
  }

  lemma {:induction false} LinkCallsAdmits(g: Graph, pf: ParsedFile, ks: seq<string>)
    requires forall k :: k in ks ==> k in pf.funcs.values
    ensures LinkCalls(g, pf, ks) == Admit(g, CallLinks(pf, ks))
  {
    if ks != [] {
      var init, k := ks[..|ks| - 1], ks[|ks| - 1];
      LinkCallsAdmits(g, pf, init);
      var h := LinkCalls(g, pf, init);
      LinkCallsFromAdmits(h, pf, k);
      AdmitUnion(g, CallLinks(pf, init), CallLinksFrom(pf, k));
    }
  }

  /** Function `fromFunc` of the file calls function `toFunc` of the same
      file: the called name is a key of the file's `funcs`. */
  ghost predicate CallsWithin(pf: ParsedFile, fromFunc: string, toFunc: string)
  {
    exists f, c :: f in pf.funcs.values && c in pf.funcs.values && c in CallNames(pf.funcs.values[f]) &&
      fromFunc == Qualify(pf.moduleId, f) && toFunc == Qualify(pf.moduleId, c)
  }

  lemma {:induction false} CallLinksMembers(pf: ParsedFile, ks: seq<string>)
    requires forall k :: k in ks ==> k in pf.funcs.values
    ensures forall e :: e in CallLinks(pf, ks).calls <==>
           exists f, c :: f in ks && c in pf.funcs.values && c in CallNames(pf.funcs.values[f]) &&
             e == (Qualify(pf.moduleId, f), Qualify(pf.moduleId, c))
  {
    if ks != [] {
      var init, k := ks[..|ks| - 1], ks[|ks| - 1];
      CallLinksMembers(pf, init);
      assert ks == init + [k];
      forall e | e in CallLinks(pf, ks).calls
        ensures (exists f, c :: f in ks && c in pf.funcs.values && c in CallNames(pf.funcs.values[f]) &&
                   e == (Qualify(pf.moduleId, f), Qualify(pf.moduleId, c)))
      {
        if e !in CallLinks(pf, init).calls {
          var c :| c in CallNames(pf.funcs.values[k]) && c in pf.funcs.values &&
            e == (Qualify(pf.moduleId, k), Qualify(pf.moduleId, c));
        }
      }
      forall e: Edge | (exists f, c :: f in ks && c in pf.funcs.values && c in CallNames(pf.funcs.values[f]) &&
                           e == (Qualify(pf.moduleId, f), Qualify(pf.moduleId, c)))
        ensures e in CallLinks(pf, ks).calls
      {
        var f, c :| f in ks && c in pf.funcs.values && c in CallNames(pf.funcs.values[f]) &&
          e == (Qualify(pf.moduleId, f), Qualify(pf.moduleId, c));
        if f != k {
          assert f in init;
        }
      }
    }
  }

  // ------------------------------------------------------------ inheritance

  /** The INHERITS edges one class attempts: its base names that are module
      identifiers. */
  function BaseLinks(child: string, bases: seq<string>, modules: set<string>): Links
  {
    Links({}, {}, {}, {}, set b | b in bases && b in modules :: (child, b))
  }

  /** One INHERITS write is the attempt of that one edge. */
  lemma InheritStepAdmits(g: Graph, child: string, base: string)
    ensures MergeInherits(g, child, base) == Admit(g, Links({}, {}, {}, {}, {(child, base)}))
  {
    assert Between({}, g.files.Keys, g.files.Keys) == {};
    assert Leaving({}, g.files.Keys) == {};
    assert Between({}, g.functions.Keys, g.functions.Keys) == {};
    assert Between({(child, base)}, g.classes.Keys, g.classes.Keys) ==
      if child in g.classes && base in g.classes then {(child, base)} else {};
  }

  lemma {:induction false} LinkBasesAdmits(g: Graph, child: string, bases: seq<string>, modules: set<string>)
    ensures LinkBases(g, child, bases, modules) == Admit(g, BaseLinks(child, bases, modules))
  {
    if bases != [] {
      var init, b := bases[..|bases| - 1], bases[|bases| - 1];
      LinkBasesAdmits(g, child, init, modules);
      var h := LinkBases(g, child, init, modules);
      var single := Links({}, {}, {}, {}, if b in modules then {(child, b)} else {});
      assert LinkBases(g, child, bases, modules) == Admit(h, single) by {
        if b in modules {
          InheritStepAdmits(h, child, b);
        } else {
          AdmitNothing(h);
        }
      }
      assert bases == init + [b];
      assert BaseLinks(child, bases, modules) == Union(BaseLinks(child, init, modules), single);
      AdmitUnion(g, BaseLinks(child, init, modules), single);
    }
  }

  function InheritLinks(pf: ParsedFile, modules: set<string>, ks: seq<string>): (l: Links)
    requires WellFormed(pf) && forall k :: k in ks ==> k in pf.classes.values
    ensures l.externals == {} && l.importsFile == {} && l.importsExternal == {} && l.calls == {}
  {
    if ks == [] then NoLinks()
    else
      var k := ks[|ks| - 1];
      Union(InheritLinks(pf, modules, ks[..|ks| - 1]),
            BaseLinks(Qualify(pf.moduleId, k), BaseNames(pf.classes.values[k].bases), modules))
  }

  lemma {:induction false} LinkInheritsAdmits(g: Graph, pf: ParsedFile, modules: set<string>, ks: seq<string>)
    requires WellFormed(pf) && forall k :: k in ks ==> k in pf.classes.values
    ensures LinkInherits(g, pf, modules, ks) == Admit(g, InheritLinks(pf, modules, ks))
  {
    if ks != [] {
      var init, k := ks[..|ks| - 1], ks[|ks| - 1];
      LinkInheritsAdmits(g, pf, modules, init);
      var h := LinkInherits(g, pf, modules, init);
      var bl := BaseLinks(Qualify(pf.moduleId, k), BaseNames(pf.classes.values[k].bases), modules);
      LinkBasesAdmits(h, Qualify(pf.moduleId, k), BaseNames(pf.classes.values[k].bases), modules);
      AdmitUnion(g, InheritLinks(pf, modules, init), bl);
    }
  }

  /** Class `child` of the file names `base` among its bases, and `base` is a
      module identifier. */
  ghost predicate InheritsAttempted(pf: ParsedFile, modules: set<string>, child: string, base: string)
  {
    exists k :: k in pf.classes.values && pf.classes.values[k].ClassDef? &&
      child == Qualify(pf.moduleId, k) && base in BaseNames(pf.classes.values[k].bases) && base in modules
  }

  lemma {:induction false} InheritLinksMembers(pf: ParsedFile, modules: set<string>, ks: seq<string>)
    requires WellFormed(pf) && forall k :: k in ks ==> k in pf.classes.values
    ensures forall e :: e in InheritLinks(pf, modules, ks).inherits <==>
           exists k :: k in ks && e.0 == Qualify(pf.moduleId, k) &&
             e.1 in BaseNames(pf.classes.values[k].bases) && e.1 in modules
  {
    if ks != [] {
      var init, k := ks[..|ks| - 1], ks[|ks| - 1];
      InheritLinksMembers(pf, modules, init);
      assert ks == init + [k];
      forall e: Edge | (exists j :: j in ks && e.0 == Qualify(pf.moduleId, j) &&
                           e.1 in BaseNames(pf.classes.values[j].bases) && e.1 in modules)
        ensures e in InheritLinks(pf, modules, ks).inherits
      {
        var j :| j in ks && e.0 == Qualify(pf.moduleId, j) &&
          e.1 in BaseNames(pf.classes.values[j].bases) && e.1 in modules;
        if j != k {
          assert j in init;
        }
      }
    }
  }

  // ------------------------------------------------------------ files

  /** Everything one parsed file attempts in pass 3. */
  function FileLinks(path: string, pf: ParsedFile, moduleToFile: map<string, Path>, modules: set<string>): Links
    requires WellFormed(pf)
  {
    Union(Union(ImportLinks(path, pf.moduleId, pf.imports, moduleToFile), CallLinks(pf, pf.funcs.keys)),
          InheritLinks(pf, modules, pf.classes.keys))
  }

  lemma LinkFileAdmits(g: Graph, path: string, pf: ParsedFile, moduleToFile: map<string, Path>, modules: set<string>)
    requires WellFormed(pf)
    ensures LinkFile(g, path, pf, moduleToFile, modules) == Admit(g, FileLinks(path, pf, moduleToFile, modules))
  {
    LinkImportsAdmits(g, path, pf.moduleId, pf.imports, moduleToFile);
    var g1 := LinkImports(g, path, pf.moduleId, pf.imports, moduleToFile);
    LinkCallsAdmits(g1, pf, pf.funcs.keys);
    var g2 := LinkCalls(g1, pf, pf.funcs.keys);
    LinkInheritsAdmits(g2, pf, modules, pf.classes.keys);
    AdmitUnion(g, ImportLinks(path, pf.moduleId, pf.imports, moduleToFile), CallLinks(pf, pf.funcs.keys));
    AdmitUnion(g, Union(ImportLinks(path, pf.moduleId, pf.imports, moduleToFile), CallLinks(pf, pf.funcs.keys)),
               InheritLinks(pf, modules, pf.classes.keys));
  }

  /** The imports one parsed file attempts. */
  lemma FileImportLinks(path: string, pf: ParsedFile, moduleToFile: map<string, Path>, modules: set<string>)
    requires WellFormed(pf)
    ensures var l := FileLinks(path, pf, moduleToFile, modules);
      && (forall x :: x in l.externals <==> ImportsExternal(pf.imports, pf.moduleId, moduleToFile, x))
      && (forall e :: e in l.importsFile <==> e.0 == path && ImportsInternal(pf.imports, pf.moduleId, moduleToFile, e.1))
      && (forall e :: e in l.importsExternal <==> e.0 == path && ImportsExternal(pf.imports, pf.moduleId, moduleToFile, e.1))
  {
    ImportLinksMembers(path, pf.moduleId, pf.imports, moduleToFile);
  }

  /** The CALLS edges one parsed file attempts. */
  lemma FileCallLinks(path: string, pf: ParsedFile, moduleToFile: map<string, Path>, modules: set<string>)
    requires WellFormed(pf)
    ensures forall e :: e in FileLinks(path, pf, moduleToFile, modules).calls <==> CallsWithin(pf, e.0, e.1)
  {
    var l := FileLinks(path, pf, moduleToFile, modules);
    assert l.calls == CallLinks(pf, pf.funcs.keys).calls;
    CallLinksMembers(pf, pf.funcs.keys);
    forall e: Edge | e in l.calls ensures CallsWithin(pf, e.0, e.1) {
      var f, c :| f in pf.funcs.keys && c in pf.funcs.values && c in CallNames(pf.funcs.values[f]) &&
        e == (Qualify(pf.moduleId, f), Qualify(pf.moduleId, c));
      assert f in pf.funcs.values;
      assert e.0 == Qualify(pf.moduleId, f) && e.1 == Qualify(pf.moduleId, c);
    }
    forall e: Edge | CallsWithin(pf, e.0, e.1) ensures e in l.calls {
      var f, c :| f in pf.funcs.values && c in pf.funcs.values && c in CallNames(pf.funcs.values[f]) &&
        e.0 == Qualify(pf.moduleId, f) && e.1 == Qualify(pf.moduleId, c);
      assert f in pf.funcs.keys;
    }
  }

  /** The INHERITS edges one parsed file attempts. */
  lemma FileInheritLinks(path: string, pf: ParsedFile, moduleToFile: map<string, Path>, modules: set<string>)
    requires WellFormed(pf)
    ensures forall e :: e in FileLinks(path, pf, moduleToFile, modules).inherits <==>
      InheritsAttempted(pf, modules, e.0, e.1)
  {
    var l := FileLinks(path, pf, moduleToFile, modules);
    assert l.inherits == InheritLinks(pf, modules, pf.classes.keys).inherits;
    InheritLinksMembers(pf, modules, pf.classes.keys);
    forall e: Edge | e in l.inherits ensures InheritsAttempted(pf, modules, e.0, e.1) {
      var k :| k in pf.classes.keys && e.0 == Qualify(pf.moduleId, k) &&
        e.1 in BaseNames(pf.classes.values[k].bases) && e.1 in modules;
      assert k in pf.classes.values;
    }
    forall e: Edge | InheritsAttempted(pf, modules, e.0, e.1) ensures e in l.inherits {
      var k :| k in pf.classes.values && pf.classes.values[k].ClassDef? &&
        e.0 == Qualify(pf.moduleId, k) && e.1 in BaseNames(pf.classes.values[k].bases) && e.1 in modules;
      assert k in pf.classes.keys;
    }
  }

  /** The union of a sequence of batches. */
  function UnionAll(ls: seq<Links>): Links
  {
    if ls == [] then NoLinks() else Union(UnionAll(ls[..|ls| - 1]), ls[|ls| - 1])
  }

  // What a union of batches attempts is what one of them attempts.

  lemma {:induction false} UnionAllExternals(ls: seq<Links>)
    ensures forall x :: x in UnionAll(ls).externals <==> exists i :: 0 <= i < |ls| && x in ls[i].externals
  {
    if ls != [] {
      var init := ls[..|ls| - 1];
      UnionAllExternals(init);
      assert forall i :: 0 <= i < |init| ==> init[i] == ls[i];
    }
  }

  lemma {:induction false} UnionAllImportsFile(ls: seq<Links>)
    ensures forall e :: e in UnionAll(ls).importsFile <==> exists i :: 0 <= i < |ls| && e in ls[i].importsFile
  {
    if ls != [] {
      var init := ls[..|ls| - 1];
      UnionAllImportsFile(init);
      assert forall i :: 0 <= i < |init| ==> init[i] == ls[i];
    }
  }

  lemma {:induction false} UnionAllImportsExternal(ls: seq<Links>)
    ensures forall e :: e in UnionAll(ls).importsExternal <==> exists i :: 0 <= i < |ls| && e in ls[i].importsExternal
  {
    if ls != [] {
      var init := ls[..|ls| - 1];
      UnionAllImportsExternal(init);
      assert forall i :: 0 <= i < |init| ==> init[i] == ls[i];
    }
  }

  lemma {:induction false} UnionAllCalls(ls: seq<Links>)
    ensures forall e :: e in UnionAll(ls).calls <==> exists i :: 0 <= i < |ls| && e in ls[i].calls
  {
    if ls != [] {
      var init := ls[..|ls| - 1];
      UnionAllCalls(init);
      assert forall i :: 0 <= i < |init| ==> init[i] == ls[i];
    }
  }

  lemma {:induction false} UnionAllInherits(ls: seq<Links>)
    ensures forall e :: e in UnionAll(ls).inherits <==> exists i :: 0 <= i < |ls| && e in ls[i].inherits
  {
    if ls != [] {
      var init := ls[..|ls| - 1];
      UnionAllInherits(init);
      assert forall i :: 0 <= i < |init| ==> init[i] == ls[i];
    }
  }

  /** The batches of the given entries of `parsed_files`, in order. */
  function FileLinksSeq(parsed: Dict<ParsedFile>, ps: seq<string>, moduleToFile: map<string, Path>, modules: set<string>)
    : seq<Links>
    requires forall p :: p in parsed.values ==> WellFormed(parsed.values[p])
    requires forall p :: p in ps ==> p in parsed.values
  {
    seq(|ps|, i requires 0 <= i < |ps| => FileLinks(ps[i], parsed.values[ps[i]], moduleToFile, modules))
  }

  /** Dropping the last entry drops the last batch. */
  lemma FileLinksSeqInit(parsed: Dict<ParsedFile>, ps: seq<string>, moduleToFile: map<string, Path>, modules: set<string>)
    requires forall p :: p in parsed.values ==> WellFormed(parsed.values[p])
    requires forall p :: p in ps ==> p in parsed.values
    requires ps != []
    ensures var ls := FileLinksSeq(parsed, ps, moduleToFile, modules);
      && |ls| == |ps|
      && ls[..|ls| - 1] == FileLinksSeq(parsed, ps[..|ps| - 1], moduleToFile, modules)
      && ls[|ls| - 1] == FileLinks(ps[|ps| - 1], parsed.values[ps[|ps| - 1]], moduleToFile, modules)
  {
    var init := ps[..|ps| - 1];
    var ls := FileLinksSeq(parsed, ps, moduleToFile, modules);
    var before := FileLinksSeq(parsed, init, moduleToFile, modules);
    forall i | 0 <= i < |before| ensures ls[..|ls| - 1][i] == before[i] {
      assert init[i] == ps[i];
    }
  }

  lemma {:induction false} Pass3Admits(g: Graph, parsed: Dict<ParsedFile>, ps: seq<string>,
                                       moduleToFile: map<string, Path>, modules: set<string>)
    requires forall p :: p in parsed.values ==> WellFormed(parsed.values[p])
    requires forall p :: p in ps ==> p in parsed.values
    ensures Pass3(g, parsed, ps, moduleToFile, modules) == Admit(g, UnionAll(FileLinksSeq(parsed, ps, moduleToFile, modules)))
  {
    if ps == [] {
      AdmitNothing(g);
    } else {
      var init, p := ps[..|ps| - 1], ps[|ps| - 1];
      Pass3Admits(g, parsed, init, moduleToFile, modules);
      var h := Pass3(g, parsed, init, moduleToFile, modules);
      var ls := FileLinksSeq(parsed, ps, moduleToFile, modules);
      FileLinksSeqInit(parsed, ps, moduleToFile, modules);
      LinkFileAdmits(h, p, parsed.values[p], moduleToFile, modules);
      AdmitUnion(g, UnionAll(ls[..|ls| - 1]), ls[|ls| - 1]);
    }
  }

  // ------------------------------------------------------------ the build

  /** The graph after passes 1 and 2. */
  function AfterPass2(files: seq<FileRecord>, parse: Path -> ParseOutcome): Graph
  {
    Pass2(Pass1(EmptyGraph(), files), files, parse)
  }

  /** The batches pass 3 attempts in a build, one per entry of
      `parsed_files`. */
  function BuildLinks(files: seq<FileRecord>, parse: Path -> ParseOutcome): seq<Links>
  {
    var parsed := ParsedFiles(files, parse);
    var moduleToFile := ModuleToFile(files);
    FileLinksSeq(parsed, parsed.keys, moduleToFile, moduleToFile.Keys)
  }

  lemma BuildAdmits(files: seq<FileRecord>, parse: Path -> ParseOutcome)
    ensures Build(files, parse) == Admit(AfterPass2(files, parse), UnionAll(BuildLinks(files, parse)))
  {
    var parsed := ParsedFiles(files, parse);
    var moduleToFile := ModuleToFile(files);
    Pass3Admits(AfterPass2(files, parse), parsed, parsed.keys, moduleToFile, moduleToFile.Keys);
  }

  /** Pass 3 adds no Repo, File, Function or Class node and no DECLARES
      edge. */
  lemma BuildKeepsNodes(files: seq<FileRecord>, parse: Path -> ParseOutcome)
    ensures var g := Build(files, parse);
      var g2 := AfterPass2(files, parse);
      && g.repos == g2.repos && g.files == g2.files && g.functions == g2.functions && g.classes == g2.classes
      && g.declaresFunction == g2.declaresFunction && g.declaresClass == g2.declaresClass
  {
    BuildAdmits(files, parse);
  }

  /** The IMPORTS edges and ExternalModule nodes of the build: the attempted
      ones, edges only where their endpoints exist. */
  lemma BuildImportShape(files: seq<FileRecord>, parse: Path -> ParseOutcome)
    ensures var g := Build(files, parse);
      var g2 := AfterPass2(files, parse);
      var l := UnionAll(BuildLinks(files, parse));
      && g.externals == l.externals
      && g.importsFile == Between(l.importsFile, g2.files.Keys, g2.files.Keys)
      && g.importsExternal == Leaving(l.importsExternal, g2.files.Keys)
  {
    BuildAdmits(files, parse);
    AfterPass2NoLinks(files, parse);
  }

  /** The CALLS and INHERITS edges of the build: the attempted ones whose
      endpoints exist. */
  lemma BuildCallInheritShape(files: seq<FileRecord>, parse: Path -> ParseOutcome)
    ensures var g := Build(files, parse);
      var g2 := AfterPass2(files, parse);
      var l := UnionAll(BuildLinks(files, parse));
      && g.calls == Between(l.calls, g2.functions.Keys, g2.functions.Keys)
      && g.inherits == Between(l.inherits, g2.classes.Keys, g2.classes.Keys)
  {
    BuildAdmits(files, parse);
    AfterPass2NoLinks(files, parse);
  }

  /** Pass 1 creates a Repo node per repository and a File node per path of
      the discovered files, and nothing else. */
  lemma {:induction false} Pass1Nodes(g: Graph, files: seq<FileRecord>)
    ensures Pass1(g, files).repos == g.repos + set t | t in files :: t.repo
    ensures Pass1(g, files).files.Keys == g.files.Keys + set t | t in files :: PathKey(t)
  {
    Pass1Repos(g, files);
    Pass1FileKeys(g, files);
  }

  lemma RepoNamesSnoc(files: seq<FileRecord>)
    requires files != []
    ensures (set u | u in files :: u.repo) ==
      (set u | u in files[..|files| - 1] :: u.repo) + {files[|files| - 1].repo}
  {
    assert files == files[..|files| - 1] + [files[|files| - 1]];
  }

  lemma PathKeysSnoc(files: seq<FileRecord>)
    requires files != []
    ensures (set u | u in files :: PathKey(u)) ==
      (set u | u in files[..|files| - 1] :: PathKey(u)) + {PathKey(files[|files| - 1])}
  {
    assert files == files[..|files| - 1] + [files[|files| - 1]];
  }

  lemma {:induction false} Pass1Repos(g: Graph, files: seq<FileRecord>)
    ensures Pass1(g, files).repos == g.repos + set t | t in files :: t.repo
  {
    if files != [] {
      var init, t := files[..|files| - 1], files[|files| - 1];
      Pass1Repos(g, init);
      var prev := Pass1(g, init);
      assert Pass1(g, files).repos == prev.repos + {t.repo} by {
        assert Pass1(g, files) == MergeFile(MergeRepo(prev, t.repo), t.repo, PathKey(t), t.moduleId);
      }
      RepoNamesSnoc(files);
    }
  }

  lemma {:induction false} Pass1FileKeys(g: Graph, files: seq<FileRecord>)
    ensures Pass1(g, files).files.Keys == g.files.Keys + set t | t in files :: PathKey(t)
  {
    if files != [] {
      var init, t := files[..|files| - 1], files[|files| - 1];
      Pass1FileKeys(g, init);
      var prev := Pass1(g, init);
      assert Pass1(g, files).files.Keys == prev.files.Keys + {PathKey(t)} by {
        var h := MergeRepo(prev, t.repo);
        assert t.repo in h.repos;
        assert Pass1(g, files) == MergeFile(h, t.repo, PathKey(t), t.moduleId);
      }
      PathKeysSnoc(files);
    }
  }

  /** After pass 2, every function and class of every entry of
      `parsed_files` has its node, and its DECLARES edge from the file when
      the File node was there before pass 2. */
  lemma {:induction false} Pass2Declares(g: Graph, files: seq<FileRecord>, parse: Path -> ParseOutcome, p: string, k: string)
    requires p in ParsedFiles(files, parse).values
    ensures var pf := ParsedFiles(files, parse).values[p];
      var r := Pass2(g, files, parse);
      && (k in pf.funcs.values ==>
            Qualify(pf.moduleId, k) in r.functions &&
            (p in g.files ==> (p, Qualify(pf.moduleId, k)) in r.declaresFunction))
      && (k in pf.classes.values ==>
            Qualify(pf.moduleId, k) in r.classes &&
            (p in g.files ==> (p, Qualify(pf.moduleId, k)) in r.declaresClass))
  {
    var init, t := files[..|files| - 1], files[|files| - 1];
    var prev := Pass2(g, init, parse);
    match parse(t.path)
    case Parsed(tree) =>
      var pf := ParseFile(tree, t.moduleId);
      if PathKey(t) == p {
        assert ParsedFiles(files, parse).values[p] == pf;
        var d := DeclareFunctions(prev, t.repo, p, pf, pf.funcs.keys);
        assert DeclareFile(prev, t.repo, p, pf) == DeclareClasses(d, t.repo, p, pf, pf.classes.keys);
        assert k in pf.funcs.values ==> k in pf.funcs.keys;
        assert k in pf.classes.values ==> k in pf.classes.keys;
      } else {
        assert ParsedFiles(files, parse).values[p] == ParsedFiles(init, parse).values[p];
        Pass2Declares(g, init, parse, p, k);
      }
    case ParseFailed =>
      Pass2Declares(g, init, parse, p, k);
  }

  /** Passes 1 and 2 write no ExternalModule and no pass-3 edge. */
  lemma AfterPass2NoLinks(files: seq<FileRecord>, parse: Path -> ParseOutcome)
    ensures var g2 := AfterPass2(files, parse);
      g2.externals == {} && g2.importsFile == {} && g2.importsExternal == {} && g2.calls == {} && g2.inherits == {}
  {
    var g1 := Pass1(EmptyGraph(), files);
    assert g1.externals == {} && g1.importsFile == {} && g1.importsExternal == {} && g1.calls == {} && g1.inherits == {};
  }

  /** What passes 1 and 2 leave: every discovered Repo and File, the nodes
      of every parsed file, no pass-3 edge yet, and nothing from a file that
      did not parse. */
  lemma AfterPass2Facts(files: seq<FileRecord>, parse: Path -> ParseOutcome)
    ensures var g2 := AfterPass2(files, parse);
      && Valid(g2)
      && g2.repos == (set t | t in files :: t.repo)
      && g2.files.Keys == (set t | t in files :: PathKey(t))
      && g2.externals == {} && g2.importsFile == {} && g2.importsExternal == {} && g2.calls == {} && g2.inherits == {}
      && FromParsed(g2, ParsedPaths(files, parse))
  {
    EmptyGraphValid();
    Pass1Nodes(EmptyGraph(), files);
    assert FromParsed(Pass1(EmptyGraph(), files), {});
    Pass2FromParsed(Pass1(EmptyGraph(), files), files, parse, {});
    assert {} + ParsedPaths(files, parse) == ParsedPaths(files, parse);
  }

  /** The nodes of a parsed file are in the final graph, with their DECLARES
      edges. */
  lemma ParsedFileDeclared(files: seq<FileRecord>, parse: Path -> ParseOutcome, p: string, k: string)
    requires p in ParsedFiles(files, parse).values
    ensures var pf := ParsedFiles(files, parse).values[p];
      var g := Build(files, parse);
      && (k in pf.funcs.values ==>
            Qualify(pf.moduleId, k) in g.functions && (p, Qualify(pf.moduleId, k)) in g.declaresFunction)
      && (k in pf.classes.values ==>
            Qualify(pf.moduleId, k) in g.classes && (p, Qualify(pf.moduleId, k)) in g.declaresClass)
  {
    var g1 := Pass1(EmptyGraph(), files);
    Pass1Nodes(EmptyGraph(), files);
    assert p in ParsedPaths(files, parse);
    assert p in g1.files;
    Pass2Declares(g1, files, parse, p, k);
    BuildAdmits(files, parse);
  }

  /** Every relationship of the built graph joins two existing nodes. */
  lemma BuildValid(files: seq<FileRecord>, parse: Path -> ParseOutcome)
    ensures Valid(Build(files, parse))
  {
    EmptyGraphValid();
  }

  /** Every discovered file has its Repo and File node whether or not it
      parses, and there are no other Repo or File nodes. */
  lemma BuildNodes(files: seq<FileRecord>, parse: Path -> ParseOutcome)
    ensures Build(files, parse).repos == set t | t in files :: t.repo
    ensures Build(files, parse).files.Keys == set t | t in files :: PathKey(t)
  {
    AfterPass2Facts(files, parse);
    BuildAdmits(files, parse);
  }

  /** The batch at a position of `BuildLinks` is the one of the entry of
      `parsed_files` at that position. */
  lemma BuildLinksAt(files: seq<FileRecord>, parse: Path -> ParseOutcome, i: int)
    requires 0 <= i < |BuildLinks(files, parse)|
    ensures var parsed := ParsedFiles(files, parse);
      var moduleToFile := ModuleToFile(files);
      && i < |parsed.keys| && parsed.keys[i] in parsed.values
      && BuildLinks(files, parse)[i] == FileLinks(parsed.keys[i], parsed.values[parsed.keys[i]], moduleToFile, moduleToFile.Keys)
  {
  }

  /** Every entry of `parsed_files` has its batch in `BuildLinks`. */
  lemma BuildLinksOf(files: seq<FileRecord>, parse: Path -> ParseOutcome, p: string) returns (i: int)
    requires p in ParsedFiles(files, parse).values
    ensures var parsed := ParsedFiles(files, parse);
      var moduleToFile := ModuleToFile(files);
      && 0 <= i < |BuildLinks(files, parse)|
      && BuildLinks(files, parse)[i] == FileLinks(p, parsed.values[p], moduleToFile, moduleToFile.Keys)
  {
    var parsed := ParsedFiles(files, parse);
    i :| 0 <= i < |parsed.keys| && parsed.keys[i] == p;
  }

  /**
   * Failure isolation: a file missing from `parsed_files` (its parse
   * raised) has no Function or Class node, no DECLARES edge and no outgoing
   * IMPORTS edge; everything of that kind belongs to a parsed file.
   */
  lemma BuildFromParsed(files: seq<FileRecord>, parse: Path -> ParseOutcome)
    ensures FromParsed(Build(files, parse), ParsedFiles(files, parse).values.Keys)
  {
    var parsed := ParsedFiles(files, parse);
    var moduleToFile := ModuleToFile(files);
    var g := Build(files, parse);
    var g2 := AfterPass2(files, parse);
    var ls := BuildLinks(files, parse);
    AfterPass2Facts(files, parse);
    BuildKeepsNodes(files, parse);
    BuildImportShape(files, parse);
    UnionAllImportsFile(ls);
    UnionAllImportsExternal(ls);
    assert FromParsed(g2, parsed.values.Keys);
    forall e | e in g.importsFile ensures e.0 in parsed.values {
      var i :| 0 <= i < |ls| && e in ls[i].importsFile;
      BuildLinksAt(files, parse, i);
      FileImportLinks(parsed.keys[i], parsed.values[parsed.keys[i]], moduleToFile, moduleToFile.Keys);
    }
    forall e | e in g.importsExternal ensures e.0 in parsed.values {
      var i :| 0 <= i < |ls| && e in ls[i].importsExternal;
      BuildLinksAt(files, parse, i);
      FileImportLinks(parsed.keys[i], parsed.values[parsed.keys[i]], moduleToFile, moduleToFile.Keys);
    }
  }

  /** CALLS edges stay within a file: there is one from `a` to `b` exactly
      when, in some parsed file, function `a` calls a name that is a key of
      the same file's `funcs` and `b` is that function. */
  lemma BuildCalls(files: seq<FileRecord>, parse: Path -> ParseOutcome, a: string, b: string)
    ensures (a, b) in Build(files, parse).calls <==>
      exists p :: p in ParsedFiles(files, parse).values && CallsWithin(ParsedFiles(files, parse).values[p], a, b)
  {
    var parsed := ParsedFiles(files, parse);
    if (a, b) in Build(files, parse).calls {
      var p := BuildCallsSound(files, parse, a, b);
    }
    if exists p :: p in parsed.values && CallsWithin(parsed.values[p], a, b) {
      var p :| p in parsed.values && CallsWithin(parsed.values[p], a, b);
      BuildCallsComplete(files, parse, p, a, b);
    }
  }

  lemma BuildCallsSound(files: seq<FileRecord>, parse: Path -> ParseOutcome, a: string, b: string) returns (p: string)
    requires (a, b) in Build(files, parse).calls
    ensures p in ParsedFiles(files, parse).values && CallsWithin(ParsedFiles(files, parse).values[p], a, b)
  {
    var parsed := ParsedFiles(files, parse);
    var moduleToFile := ModuleToFile(files);
    var ls := BuildLinks(files, parse);
    BuildCallInheritShape(files, parse);
    UnionAllCalls(ls);
    var i :| 0 <= i < |ls| && (a, b) in ls[i].calls;
    BuildLinksAt(files, parse, i);
    p := parsed.keys[i];
    FileCallLinks(p, parsed.values[p], moduleToFile, moduleToFile.Keys);
  }

  lemma BuildCallsComplete(files: seq<FileRecord>, parse: Path -> ParseOutcome, p: string, a: string, b: string)
    requires p in ParsedFiles(files, parse).values && CallsWithin(ParsedFiles(files, parse).values[p], a, b)
    ensures (a, b) in Build(files, parse).calls
  {
    var parsed := ParsedFiles(files, parse);
    var moduleToFile := ModuleToFile(files);
    var g2 := AfterPass2(files, parse);
    var ls := BuildLinks(files, parse);
    var pf := parsed.values[p];
    var f, c :| f in pf.funcs.values && c in pf.funcs.values && c in CallNames(pf.funcs.values[f]) &&
      a == Qualify(pf.moduleId, f) && b == Qualify(pf.moduleId, c);
    ParsedFileDeclared(files, parse, p, f);
    ParsedFileDeclared(files, parse, p, c);
    BuildKeepsNodes(files, parse);
    assert a in g2.functions && b in g2.functions;
    var i := BuildLinksOf(files, parse, p);
    FileCallLinks(p, pf, moduleToFile, moduleToFile.Keys);
    assert (a, b) in ls[i].calls;
    UnionAllCalls(ls);
    assert (a, b) in UnionAll(ls).calls;
    BuildCallInheritShape(files, parse);
  }

  /** The file the index gives for a module has a File node after pass 1. */
  lemma IndexedFileNode(files: seq<FileRecord>, parse: Path -> ParseOutcome, m: string)
    requires m in ModuleToFile(files)
    ensures PathString(ModuleToFile(files)[m]) in AfterPass2(files, parse).files
  {
    ModuleToFileLastWins(files, m);
    var j :| 0 <= j < |files| && files[j].moduleId == m && files[j].path == ModuleToFile(files)[m];
    AfterPass2Facts(files, parse);
    assert files[j] in files;
  }

  /** A parsed file has a File node after pass 1. */
  lemma ParsedFileNode(files: seq<FileRecord>, parse: Path -> ParseOutcome, p: string)
    requires p in ParsedFiles(files, parse).values
    ensures p in AfterPass2(files, parse).files
  {
    AfterPass2Facts(files, parse);
  }

  /** Every IMPORTS edge between files comes from an import of a parsed file
      that the index resolves to the target. */
  lemma BuildImportsSound(files: seq<FileRecord>, parse: Path -> ParseOutcome, p: string, target: string)
    requires (p, target) in Build(files, parse).importsFile
    ensures var parsed := ParsedFiles(files, parse);
      p in parsed.values &&
      ImportsInternal(parsed.values[p].imports, parsed.values[p].moduleId, ModuleToFile(files), target)
  {
    var parsed := ParsedFiles(files, parse);
    var moduleToFile := ModuleToFile(files);
    var ls := BuildLinks(files, parse);
    BuildImportShape(files, parse);
    UnionAllImportsFile(ls);
    var i :| 0 <= i < |ls| && (p, target) in ls[i].importsFile;
    BuildLinksAt(files, parse, i);
    FileImportLinks(parsed.keys[i], parsed.values[parsed.keys[i]], moduleToFile, moduleToFile.Keys);
  }

  /** Every import of a parsed file that the index resolves gives an IMPORTS
      edge to the file of the module. */
  lemma BuildImportsComplete(files: seq<FileRecord>, parse: Path -> ParseOutcome, p: string, target: string)
    requires p in ParsedFiles(files, parse).values
    requires var pf := ParsedFiles(files, parse).values[p];
      ImportsInternal(pf.imports, pf.moduleId, ModuleToFile(files), target)
    ensures (p, target) in Build(files, parse).importsFile
  {
    var parsed := ParsedFiles(files, parse);
    var moduleToFile := ModuleToFile(files);
    var ls := BuildLinks(files, parse);
    var pf := parsed.values[p];
    var r :| r in pf.imports && Classify(r.name, pf.moduleId, moduleToFile) == InternalFile(target);
    IndexedFileNode(files, parse, r.name);
    ParsedFileNode(files, parse, p);
    var i := BuildLinksOf(files, parse, p);
    FileImportLinks(p, pf, moduleToFile, moduleToFile.Keys);
    assert (p, target) in ls[i].importsFile;
    UnionAllImportsFile(ls);
    assert (p, target) in UnionAll(ls).importsFile;
    BuildImportShape(files, parse);
  }

  /** An IMPORTS edge between files runs from a parsed file to the file of a
      module it imports that the index knows, and every such import gives
      one. */
  lemma BuildImports(files: seq<FileRecord>, parse: Path -> ParseOutcome, p: string, target: string)
    ensures var parsed := ParsedFiles(files, parse);
      (p, target) in Build(files, parse).importsFile <==>
        p in parsed.values &&
        ImportsInternal(parsed.values[p].imports, parsed.values[p].moduleId, ModuleToFile(files), target)
  {
    var parsed := ParsedFiles(files, parse);
    if (p, target) in Build(files, parse).importsFile {
      BuildImportsSound(files, parse, p, target);
    }
    if p in parsed.values && ImportsInternal(parsed.values[p].imports, parsed.values[p].moduleId, ModuleToFile(files), target) {
      BuildImportsComplete(files, parse, p, target);
    }
  }

  /** An IMPORTS edge to an ExternalModule runs from a parsed file to a name
      it imports that is classified as external, and every such import gives
      one. */
  lemma BuildExternalImports(files: seq<FileRecord>, parse: Path -> ParseOutcome, p: string, name: string)
    ensures var parsed := ParsedFiles(files, parse);
      (p, name) in Build(files, parse).importsExternal <==>
        p in parsed.values &&
        ImportsExternal(parsed.values[p].imports, parsed.values[p].moduleId, ModuleToFile(files), name)
  {
    var parsed := ParsedFiles(files, parse);
    if (p, name) in Build(files, parse).importsExternal {
      BuildExternalImportsSound(files, parse, p, name);
    }
    if p in parsed.values && ImportsExternal(parsed.values[p].imports, parsed.values[p].moduleId, ModuleToFile(files), name) {
      BuildExternalImportsComplete(files, parse, p, name);
    }
  }

  lemma BuildExternalImportsSound(files: seq<FileRecord>, parse: Path -> ParseOutcome, p: string, name: string)
    requires (p, name) in Build(files, parse).importsExternal
    ensures var parsed := ParsedFiles(files, parse);
      p in parsed.values &&
      ImportsExternal(parsed.values[p].imports, parsed.values[p].moduleId, ModuleToFile(files), name)
  {
    var parsed := ParsedFiles(files, parse);
    var moduleToFile := ModuleToFile(files);
    var ls := BuildLinks(files, parse);
    BuildImportShape(files, parse);
    UnionAllImportsExternal(ls);
    var i :| 0 <= i < |ls| && (p, name) in ls[i].importsExternal;
    BuildLinksAt(files, parse, i);
    FileImportLinks(parsed.keys[i], parsed.values[parsed.keys[i]], moduleToFile, moduleToFile.Keys);
  }

  lemma BuildExternalImportsComplete(files: seq<FileRecord>, parse: Path -> ParseOutcome, p: string, name: string)
    requires p in ParsedFiles(files, parse).values
    requires var pf := ParsedFiles(files, parse).values[p];
      ImportsExternal(pf.imports, pf.moduleId, ModuleToFile(files), name)
    ensures (p, name) in Build(files, parse).importsExternal
  {
    var parsed := ParsedFiles(files, parse);
    var moduleToFile := ModuleToFile(files);
    var ls := BuildLinks(files, parse);
    ParsedFileNode(files, parse, p);
    var i := BuildLinksOf(files, parse, p);
    FileImportLinks(p, parsed.values[p], moduleToFile, moduleToFile.Keys);
    assert (p, name) in ls[i].importsExternal;
    UnionAllImportsExternal(ls);
    assert (p, name) in UnionAll(ls).importsExternal;
    BuildImportShape(files, parse);
  }

  /** The ExternalModule nodes are exactly the names some parsed file imports
      that are classified as external. */
  lemma BuildExternalModules(files: seq<FileRecord>, parse: Path -> ParseOutcome, name: string)
    ensures var parsed := ParsedFiles(files, parse);
      name in Build(files, parse).externals <==>
        exists q :: q in parsed.values &&
          ImportsExternal(parsed.values[q].imports, parsed.values[q].moduleId, ModuleToFile(files), name)
  {
    var parsed := ParsedFiles(files, parse);
    var moduleToFile := ModuleToFile(files);
    var g := Build(files, parse);
    var ls := BuildLinks(files, parse);
    BuildImportShape(files, parse);
    UnionAllExternals(ls);
    if name in g.externals {
      var i :| 0 <= i < |ls| && name in ls[i].externals;
      BuildLinksAt(files, parse, i);
      var q := parsed.keys[i];
      FileImportLinks(q, parsed.values[q], moduleToFile, moduleToFile.Keys);
      assert ImportsExternal(parsed.values[q].imports, parsed.values[q].moduleId, moduleToFile, name);
    }
    if exists q :: q in parsed.values &&
         ImportsExternal(parsed.values[q].imports, parsed.values[q].moduleId, moduleToFile, name) {
      var q :| q in parsed.values &&
        ImportsExternal(parsed.values[q].imports, parsed.values[q].moduleId, moduleToFile, name);
      var i := BuildLinksOf(files, parse, q);
      FileImportLinks(q, parsed.values[q], moduleToFile, moduleToFile.Keys);
      assert name in ls[i].externals;
    }
  }

  /**
   * The inheritance gate as written: an INHERITS edge from `child` to `base`
   * exists exactly when some parsed file's class `child` names `base` among
   * its bases, `base` is a module identifier, and a Class node whose
   * qualified name is `base` exists.
   */
  lemma BuildInherits(files: seq<FileRecord>, parse: Path -> ParseOutcome, child: string, base: string)
    ensures var parsed := ParsedFiles(files, parse);
      (child, base) in Build(files, parse).inherits <==>
        base in Build(files, parse).classes &&
        exists p :: p in parsed.values && InheritsAttempted(parsed.values[p], ModuleToFile(files).Keys, child, base)
  {
    var parsed := ParsedFiles(files, parse);
    var moduleToFile := ModuleToFile(files);
    var g := Build(files, parse);
    var g2 := AfterPass2(files, parse);
    var ls := BuildLinks(files, parse);
    BuildKeepsNodes(files, parse);
    BuildCallInheritShape(files, parse);
    UnionAllInherits(ls);
    if (child, base) in g.inherits {
      var i :| 0 <= i < |ls| && (child, base) in ls[i].inherits;
      BuildLinksAt(files, parse, i);
      var p := parsed.keys[i];
      FileInheritLinks(p, parsed.values[p], moduleToFile, moduleToFile.Keys);
      assert InheritsAttempted(parsed.values[p], moduleToFile.Keys, child, base);
    }
    if base in g.classes &&
       exists p :: p in parsed.values && InheritsAttempted(parsed.values[p], moduleToFile.Keys, child, base) {
      var p :| p in parsed.values && InheritsAttempted(parsed.values[p], moduleToFile.Keys, child, base);
      var pf := parsed.values[p];
      var k :| k in pf.classes.values && pf.classes.values[k].ClassDef? &&
        child == Qualify(pf.moduleId, k) && base in BaseNames(pf.classes.values[k].bases) && base in moduleToFile.Keys;
      ParsedFileDeclared(files, parse, p, k);
      var i := BuildLinksOf(files, parse, p);
      FileInheritLinks(p, pf, moduleToFile, moduleToFile.Keys);
      assert (child, base) in ls[i].inherits;
      assert (child, base) in UnionAll(ls).inherits;
      assert child in g2.classes && base in g2.classes;
    }
  }

  /** The inheritance gate compares base names with module identifiers, not
      with Class names: in module `repo.m`, `class Child(Base)` next to
      `class Base` gets no INHERITS edge although both Class nodes exist. */
  lemma SameModuleBaseNotLinked(g: Graph)
    requires "repo.m.Child" in g.classes && "repo.m.Base" in g.classes
    ensures LinkBases(g, "repo.m.Child", BaseNames([Name("Base")]), {"repo.m"}) == g
  {
    assert BaseNames([Name("Base")]) == ["Base"];
    assert "Base" != "repo.m";
  }

  /** The external test is a raw string prefix on the first segment of the
      importing module: from module `repoA.main`, `repoAB.x` is neither
      resolved nor external although its first segment differs. */
  lemma PrefixTestDropsLookalike()
    ensures Classify("repoAB.x", "repoA.main", map[]) == Dropped
  {
    FirstSegmentOfJoin("repoA", "main");
    assert "repoA" + "." + "main" == "repoA.main";
    assert "repoAB.x"[..5] == "repoA";
  }

  /** From module `repoA.main`, `os.path` is external. */
  lemma OtherPackageIsExternal()
    ensures Classify("os.path", "repoA.main", map[]) == ExternalModule("os.path")
  {
    FirstSegmentOfJoin("repoA", "main");
    assert "repoA" + "." + "main" == "repoA.main";
    assert "os.path"[0] != "repoA"[0];
  }

  /** An indexed module resolves to its file, whatever its name. */
  lemma IndexedModuleResolves()
    ensures Classify("repoA.util", "repoA.main", map["repoA.util" := ["repos", "repoA", "util.py"]]) ==
      InternalFile("repos/repoA/util.py")
  {
    assert Join("/", ["util.py"]) == "util.py";
    assert Join("/", ["repoA", "util.py"]) == "repoA/util.py";
    assert Join("/", ["repos", "repoA", "util.py"]) == "repos/repoA/util.py";
  }
}
