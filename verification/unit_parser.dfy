/**
 * The unit parser: what `parse_defs_and_imports` collects from the tree of
 * one file once `ast.parse` has produced it. It walks every node
 * (`ast.walk`), keeps each `FunctionDef` and `ClassDef` under its simple
 * name in a dictionary (a later one with the same name replaces an earlier
 * one) and records one dotted name per imported alias.
 */
module UnitParser {
  import opened Strings
  import opened PyAst

  /** A Python `dict` with string keys: the keys in first-insertion order and
      the values as last assigned. */
  datatype Dict<V> = Dict(keys: seq<string>, values: map<string, V>)

  /** The keys listed are exactly the keys of the map. */
  ghost predicate SameKeys<V>(d: Dict<V>)
  {
    forall k :: k in d.values <==> k in d.keys
  }

  /** The keys are listed once each, and exactly the keys of the map. */
  ghost predicate DictValid<V>(d: Dict<V>)
  {
    && (forall i, j :: 0 <= i < j < |d.keys| ==> d.keys[i] != d.keys[j])
    && SameKeys(d)
  }

  function EmptyDict<V>(): (d: Dict<V>)
    ensures DictValid(d) && d.values == map[]
  {
    Dict([], map[])
  }

  /** `d[k] = v`: a new key goes to the end, an existing key keeps its place. */
  function Put<V>(d: Dict<V>, k: string, v: V): (r: Dict<V>)
    ensures DictValid(d) ==> DictValid(r)
    ensures r.values == d.values[k := v]
    ensures k in d.values ==> r.keys == d.keys
    ensures k !in d.values ==> r.keys == d.keys + [k]
  {
    if k in d.values then Dict(d.keys, d.values[k := v]) else Dict(d.keys + [k], d.values[k := v])
  }

  /** One element of the `imports` list: `(imported_module_str, lineno)`. */
  datatype ImportRecord = ImportRecord(name: string, lineno: int)

  /** The name `from <module> import <alias>` records: `node.module or ""`,
      then the alias name, with a dot between them only when the module is
      non-empty. The relative-import level and the `as` name play no part. */
  function FromImportName(fromModule: Option<string>, alias: Alias): string
  {
    var m := if fromModule.Some? then fromModule.value else "";
    if m != "" then m + "." + alias.name else alias.name
  }

  /** The records one import statement contributes, one per alias, in order. */
  function ImportRecords(n: Node): seq<ImportRecord>
  {
    match n
    case Import(names, line) =>
      seq(|names|, i requires 0 <= i < |names| => ImportRecord(names[i].name, line))
    case ImportFrom(m, names, _, line) =>
      seq(|names|, i requires 0 <= i < |names| => ImportRecord(FromImportName(m, names[i]), line))
    case _ => []
  }

  /** `(funcs, classes, imports)`, the three results of the parser. */
  datatype Summary = Summary(funcs: Dict<Node>, classes: Dict<Node>, imports: seq<ImportRecord>)

  /** What visiting one walked node adds to the summary. */
  function Step(s: Summary, n: Node): Summary
  {
    match n
    case FunctionDef(name, _, _, _) => s.(funcs := Put(s.funcs, name, n))
    case ClassDef(name, _, _, _, _) => s.(classes := Put(s.classes, name, n))
    case Import(_, _) => s.(imports := s.imports + ImportRecords(n))
    case ImportFrom(_, _, _, _) => s.(imports := s.imports + ImportRecords(n))
    case _ => s
  }

  /** The summary of a sequence of walked nodes, visited in order. */
  function Summarize(ws: seq<Node>): Summary
  {
    if ws == [] then Summary(EmptyDict(), EmptyDict(), [])
    else Step(Summarize(ws[..|ws| - 1]), ws[|ws| - 1])
  }

  /** The inner loop over `node.names` of an import statement: one record
      per alias appended to `imports`. */
  method AppendImportRecords(imports: seq<ImportRecord>, node: Node) returns (r: seq<ImportRecord>)
    requires node.Import? || node.ImportFrom?
    ensures r == imports + ImportRecords(node)
  {
    r := imports;
    var names := node.names;
    var moduleText := if node.ImportFrom? && node.fromModule.Some? then node.fromModule.value else "";
    for j := 0 to |names|
      invariant r == imports + ImportRecords(node)[..j]
    {
      var fullName := if node.Import? then names[j].name
                      else if moduleText != "" then moduleText + "." + names[j].name
                      else names[j].name;
      assert ImportRecords(node)[..j + 1] == ImportRecords(node)[..j] + [ImportRecord(fullName, node.lineno)];
      r := r + [ImportRecord(fullName, node.lineno)];
    }
    assert ImportRecords(node)[..|names|] == ImportRecords(node);
  }

  /** `parse_defs_and_imports` on an already parsed tree. */
  method ParseDefsAndImports(tree: Node)
    returns (funcs: Dict<Node>, classes: Dict<Node>, imports: seq<ImportRecord>)
    ensures Summary(funcs, classes, imports) == Summarize(Walk(tree))
  {
    funcs, classes, imports := EmptyDict(), EmptyDict(), [];
    var nodes := Walk(tree);
    for i := 0 to |nodes|
      invariant Summary(funcs, classes, imports) == Summarize(nodes[..i])
    {
      assert nodes[..i + 1][..i] == nodes[..i];
      var node := nodes[i];
      match node {
        case FunctionDef(name, _, _, _) =>
          funcs := Put(funcs, name, node);
        case ClassDef(name, _, _, _, _) =>
          classes := Put(classes, name, node);
        case Import(_, _) =>
          imports := AppendImportRecords(imports, node);
        case ImportFrom(_, _, _, _) =>
          imports := AppendImportRecords(imports, node);
        case _ =>
      }
    }
    assert nodes[..|nodes|] == nodes;
  }

  predicate IsFunctionDefNamed(n: Node, name: string)
  {
    n.FunctionDef? && n.name == name
  }

  predicate IsClassDefNamed(n: Node, name: string)
  {
    n.ClassDef? && n.name == name
  }

  /** Both dictionaries of a summary are well formed, and they hold only
      `FunctionDef` and only `ClassDef` nodes respectively. */
  lemma {:induction false} SummarizeValid(ws: seq<Node>)
    ensures DictValid(Summarize(ws).funcs) && DictValid(Summarize(ws).classes)
    ensures forall k :: k in Summarize(ws).funcs.values ==> Summarize(ws).funcs.values[k].FunctionDef?
    ensures forall k :: k in Summarize(ws).classes.values ==> Summarize(ws).classes.values[k].ClassDef?
  {
    if ws != [] {
      SummarizeValid(ws[..|ws| - 1]);
    }
  }

  /** Visiting the last walked node: a `FunctionDef` sets its name in
      `funcs`, a `ClassDef` in `classes`, and nothing else touches them. */
  lemma SummarizeLast(ws: seq<Node>)
    requires ws != []
    ensures var prev, last := Summarize(ws[..|ws| - 1]), ws[|ws| - 1];
      && Summarize(ws).funcs.values ==
           (if last.FunctionDef? then prev.funcs.values[last.name := last] else prev.funcs.values)
      && Summarize(ws).classes.values ==
           (if last.ClassDef? then prev.classes.values[last.name := last] else prev.classes.values)
  {
  }

  /**
   * `funcs` has a key for exactly the names of the walked `FunctionDef`
   * nodes (an `AsyncFunctionDef` is never one), and its value is the last
   * walked `FunctionDef` of that name.
   */
  lemma {:induction false} FuncsLastWins(ws: seq<Node>, name: string)
    ensures name in Summarize(ws).funcs.values <==>
      exists i :: 0 <= i < |ws| && IsFunctionDefNamed(ws[i], name)
    ensures name in Summarize(ws).funcs.values ==>
      exists i :: 0 <= i < |ws| && ws[i] == Summarize(ws).funcs.values[name] &&
        IsFunctionDefNamed(ws[i], name) &&
        forall j :: i < j < |ws| ==> !IsFunctionDefNamed(ws[j], name)
  {
    if ws != [] {
      var init, last := ws[..|ws| - 1], ws[|ws| - 1];
      FuncsLastWins(init, name);
      var r := Summarize(ws);
      SummarizeLast(ws);
      if IsFunctionDefNamed(last, name) {
        assert r.funcs.values[name] == last;
      } else {
        if exists i :: 0 <= i < |ws| && IsFunctionDefNamed(ws[i], name) {
          var i :| 0 <= i < |ws| && IsFunctionDefNamed(ws[i], name);
          assert init[i] == ws[i];
        }
        if name in r.funcs.values {
          var i :| 0 <= i < |init| && init[i] == Summarize(init).funcs.values[name] &&
            IsFunctionDefNamed(init[i], name) &&
            forall j :: i < j < |init| ==> !IsFunctionDefNamed(init[j], name);
          assert ws[i] == init[i];
          assert forall j :: i < j < |ws| ==> !IsFunctionDefNamed(ws[j], name) by {
            forall j | i < j < |ws| ensures !IsFunctionDefNamed(ws[j], name) {
              if j < |init| {
                assert ws[j] == init[j];
              }
            }
          }
        }
      }
    }
  }

  /** The same for `classes`: a key per walked `ClassDef` name, valued with
      the last walked `ClassDef` of that name. */
  lemma {:induction false} ClassesLastWins(ws: seq<Node>, name: string)
    ensures name in Summarize(ws).classes.values <==>
      exists i :: 0 <= i < |ws| && IsClassDefNamed(ws[i], name)
    ensures name in Summarize(ws).classes.values ==>
      exists i :: 0 <= i < |ws| && ws[i] == Summarize(ws).classes.values[name] &&
        IsClassDefNamed(ws[i], name) &&
        forall j :: i < j < |ws| ==> !IsClassDefNamed(ws[j], name)
  {
    if ws != [] {
      var init, last := ws[..|ws| - 1], ws[|ws| - 1];
      ClassesLastWins(init, name);
      var r := Summarize(ws);
      SummarizeLast(ws);
      if IsClassDefNamed(last, name) {
        assert r.classes.values[name] == last;
      } else {
        if exists i :: 0 <= i < |ws| && IsClassDefNamed(ws[i], name) {
          var i :| 0 <= i < |ws| && IsClassDefNamed(ws[i], name);
          assert init[i] == ws[i];
        }
        if name in r.classes.values {
          var i :| 0 <= i < |init| && init[i] == Summarize(init).classes.values[name] &&
            IsClassDefNamed(init[i], name) &&
            forall j :: i < j < |init| ==> !IsClassDefNamed(init[j], name);
          assert ws[i] == init[i];
          assert forall j :: i < j < |ws| ==> !IsClassDefNamed(ws[j], name) by {
            forall j | i < j < |ws| ensures !IsClassDefNamed(ws[j], name) {
              if j < |init| {
                assert ws[j] == init[j];
              }
            }
          }
        }
      }
    }
  }

  /** Every `def` anywhere in the tree -- a method, a nested function -- gets a
      key in `funcs`, because `ast.walk` reaches every node. */
  lemma NestedDefsCollected(tree: Node, def: Node)
    requires def.FunctionDef? && Occurs(def, tree)
    ensures def.name in Summarize(Walk(tree)).funcs.values
  {
    WalkCovers(def, tree);
    var ws := Walk(tree);
    var i :| 0 <= i < |ws| && ws[i] == def;
    FuncsLastWins(ws, def.name);
  }

  /** The same for every `class` anywhere in the tree. */
  lemma NestedClassesCollected(tree: Node, cls: Node)
    requires cls.ClassDef? && Occurs(cls, tree)
    ensures cls.name in Summarize(Walk(tree)).classes.values
  {
    WalkCovers(cls, tree);
    var ws := Walk(tree);
    var i :| 0 <= i < |ws| && ws[i] == cls;
    ClassesLastWins(ws, cls.name);
  }

  /** The import records of a walk: every statement's records, in walk order. */
  lemma {:induction false} ImportsInWalkOrder(ws: seq<Node>, k: int)
    requires 0 <= k <= |ws|
    ensures Summarize(ws[..k]).imports + Summarize(ws[k..]).imports == Summarize(ws).imports
    decreases |ws|
  {
    if k < |ws| {
      var init := ws[..|ws| - 1];
      ImportsInWalkOrder(init, k);
      assert init[..k] == ws[..k];
      var tail := ws[k..];
      assert tail[..|tail| - 1] == init[k..];
      assert tail[|tail| - 1] == ws[|ws| - 1];
    } else {
      assert ws[..k] == ws;
      assert ws[k..] == [];
    }
  }

  /** Each statement contributes one record per alias, tagged with the
      statement's line. */
  lemma ImportRecordsPerAlias(n: Node)
    requires n.Import? || n.ImportFrom?
    ensures |ImportRecords(n)| == |n.names|
    ensures forall i :: 0 <= i < |n.names| ==>
      ImportRecords(n)[i].lineno == n.lineno &&
      ImportRecords(n)[i].name == (if n.Import? then n.names[i].name
                                   else FromImportName(n.fromModule, n.names[i]))
  {
  }

  /** `import a.b as h` records `a.b`. */
  lemma ImportExample()
    ensures ImportRecords(Import([Alias("a.b", Some("h"))], 3)) == [ImportRecord("a.b", 3)]
  {
  }

  /** `from a.b import c` records `a.b.c`; `from . import c` records `c`;
      `from .a import b` records `a.b`, the leading dot being dropped. */
  lemma ImportFromExamples()
    ensures ImportRecords(ImportFrom(Some("a.b"), [Alias("c", None)], 0, 5)) == [ImportRecord("a.b.c", 5)]
    ensures ImportRecords(ImportFrom(None, [Alias("c", None)], 1, 6)) == [ImportRecord("c", 6)]
    ensures ImportRecords(ImportFrom(Some("a"), [Alias("b", None)], 1, 7)) == [ImportRecord("a.b", 7)]
  {
    assert "a.b" + "." + "c" == "a.b.c";
    assert "a" + "." + "b" == "a.b";
  }
}
