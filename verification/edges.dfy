/**
 * The edge extractor's two tree scans: the names a function calls
 * (`collect_call_edges`, a `NodeVisitor` that adds to a set) and the dotted
 * names of a class's bases (`collect_inheritance_edges`).
 */
module EdgeExtractor {
  import opened Strings
  import opened PyAst

  /** The name a call through `func` contributes: the id of a bare name, only
      the trailing attribute of an attribute access, and nothing for any
      other callee (a subscript, a call result, ...). */
  function CalleeName(func: Node): set<string>
  {
    match func
    case Name(id) => {id}
    case Attribute(_, attr) => {attr}
    case _ => {}
  }

  /** The names the visitor collects below and at `n`. */
  function CallNames(n: Node): set<string>
    decreases Size(n), 0
  {
    SizeChildren(n);
    (if n.Call? then CalleeName(n.func) else {}) + CallNamesIn(Children(n))
  }

  function CallNamesIn(s: seq<Node>): set<string>
    decreases SizeSeq(s), 1
  {
    if s == [] then {} else CallNames(s[0]) + CallNamesIn(s[1..])
  }

  lemma {:induction false} CallNamesInConcat(a: seq<Node>, b: seq<Node>)
    ensures CallNamesIn(a + b) == CallNamesIn(a) + CallNamesIn(b)
    decreases |a|
  {
    if a != [] {
      assert (a + b)[0] == a[0] && (a + b)[1..] == a[1..] + b;
      CallNamesInConcat(a[1..], b);
    } else {
      assert a + b == b;
    }
  }

  /** The `_CallVisitor` of `collect_call_edges`; `calls` is the set it adds to. */
  class CallVisitor {
    var calls: set<string>

    constructor ()
      ensures calls == {}
    {
      calls := {};
    }

    /** `visit(node)`: `visit_Call` on a call, then `generic_visit` into every
        child; on any other node just `generic_visit`. */
    method Visit(node: Node)
      modifies this
      ensures calls == old(calls) + CallNames(node)
      decreases Size(node)
    {
      if node.Call? {
        if node.func.Name? {
          calls := calls + {node.func.id};
        } else if node.func.Attribute? {
          calls := calls + {node.func.attr};
        }
      }
      var children := Children(node);
      ghost var visited := calls;
      for i := 0 to |children|
        invariant calls == visited + CallNamesIn(children[..i])
      {
        ChildSmaller(node, i);
        Visit(children[i]);
        assert children[..i + 1] == children[..i] + [children[i]];
        CallNamesInConcat(children[..i], [children[i]]);
        assert [children[i]][1..] == [];
      }
      assert children[..|children|] == children;
    }
  }

  /** `collect_call_edges(func_node)`. */
  method CollectCallEdges(funcNode: Node) returns (calls: set<string>)
    ensures calls == CallNames(funcNode)
  {
    var visitor := new CallVisitor();
    visitor.Visit(funcNode);
    calls := visitor.calls;
  }

  /**
   * The collected names are exactly the callee names of the calls lying
   * anywhere in the tree -- nested calls, calls in nested functions and in
   * arguments included.
   */
  lemma {:induction false} CallNamesAreCallees(x: string, n: Node)
    ensures x in CallNames(n) <==>
      exists c :: Occurs(c, n) && c.Call? && x in CalleeName(c.func)
    decreases Size(n), 0
  {
    SizeChildren(n);
    CallNamesInAreCallees(x, Children(n));
    if x in CallNames(n) && !(n.Call? && x in CalleeName(n.func)) {
      var c :| OccursIn(c, Children(n)) && c.Call? && x in CalleeName(c.func);
      assert Occurs(c, n);
    }
  }

  lemma {:induction false} CallNamesInAreCallees(x: string, s: seq<Node>)
    ensures x in CallNamesIn(s) <==>
      exists c :: OccursIn(c, s) && c.Call? && x in CalleeName(c.func)
    decreases SizeSeq(s), 1
  {
    if s != [] {
      CallNamesAreCallees(x, s[0]);
      CallNamesInAreCallees(x, s[1..]);
      if x in CallNamesIn(s) {
        if x in CallNames(s[0]) {
          var c :| Occurs(c, s[0]) && c.Call? && x in CalleeName(c.func);
          assert OccursIn(c, s);
        } else {
          var c :| OccursIn(c, s[1..]) && c.Call? && x in CalleeName(c.func);
          assert OccursIn(c, s);
        }
      }
    }
  }

  /** `f(...)` contributes `f`, `obj.m(...)` contributes only `m`, `xs[0](...)`
      contributes nothing, and the call in an argument is visited too. */
  lemma CalleeExamples()
    ensures CallNames(Call(Name("f"), [])) == {"f"}
    ensures CallNames(Call(Attribute(Name("self"), "m"), [])) == {"m"}
    ensures CallNames(Call(Subscript(Name("xs"), Name("i")), [])) == {}
    ensures CallNames(Call(Name("f"), [Call(Name("g"), [])])) == {"f", "g"}
  {
    assert CallNamesIn([]) == {};
    assert CallNames(Name("f")) == {} by { assert Children(Name("f")) == []; }
    assert CallNames(Name("g")) == {} by { assert Children(Name("g")) == []; }
    assert CallNames(Name("self")) == {} by { assert Children(Name("self")) == []; }
    assert CallNames(Name("xs")) == {} by { assert Children(Name("xs")) == []; }
    assert CallNames(Name("i")) == {} by { assert Children(Name("i")) == []; }
    assert CallNames(Attribute(Name("self"), "m")) == {} by {
      assert CallNamesIn([Name("self")]) == {} by { assert [Name("self")][1..] == []; }
    }
    assert CallNames(Subscript(Name("xs"), Name("i"))) == {} by {
      assert [Name("xs"), Name("i")][1..] == [Name("i")];
      assert [Name("i")][1..] == [];
    }
    assert CallNames(Call(Name("g"), [])) == {"g"} by {
      assert CallNamesIn([Name("g")]) == {} by { assert [Name("g")][1..] == []; }
    }
    assert CallNamesIn([Call(Name("g"), [])]) == {"g"} by {
      assert [Call(Name("g"), [])][1..] == [];
    }
    assert Children(Call(Name("f"), [Call(Name("g"), [])])) == [Name("f"), Call(Name("g"), [])];
    assert [Name("f"), Call(Name("g"), [])][1..] == [Call(Name("g"), [])];
    assert CallNamesIn([Name("f")]) == {} by { assert [Name("f")][1..] == []; }
    assert Children(Call(Attribute(Name("self"), "m"), [])) == [Attribute(Name("self"), "m")];
    assert [Attribute(Name("self"), "m")][1..] == [];
    assert Children(Call(Subscript(Name("xs"), Name("i")), [])) == [Subscript(Name("xs"), Name("i"))];
    assert [Subscript(Name("xs"), Name("i"))][1..] == [];
    assert Children(Call(Name("f"), [])) == [Name("f")];
  }

  /** The innermost value of an attribute chain: `a` for `a.b.c`. */
  function ChainRoot(n: Node): Node
  {
    if n.Attribute? then ChainRoot(n.value) else n
  }

  /** The attribute names of a chain in source order: `[b, c]` for `a.b.c`. */
  function ChainAttrs(n: Node): seq<string>
  {
    if n.Attribute? then ChainAttrs(n.value) + [n.attr] else []
  }

  /** The base name one class base gives: a bare name's id; for an attribute
      chain that starts at a bare name, the names of the chain joined by dots
      in source order; nothing for any other base. */
  function BaseName(base: Node): Option<string>
  {
    if base.Name? then Some(base.id)
    else if base.Attribute? && ChainRoot(base).Name? then
      Some(Join(".", [ChainRoot(base).id] + ChainAttrs(base)))
    else None
  }

  /** The base names of a class, in the order of its bases. */
  function BaseNames(bases: seq<Node>): seq<string>
  {
    if bases == [] then []
    else
      var prev := BaseNames(bases[..|bases| - 1]);
      match BaseName(bases[|bases| - 1])
      case Some(b) => prev + [b]
      case None => prev
  }

  /** `reversed(name_parts)`: the same names, last first. */
  function Reversed(s: seq<string>): (r: seq<string>)
    ensures |r| == |s|
    ensures forall i :: 0 <= i < |s| ==> r[i] == s[|s| - 1 - i]
  {
    if s == [] then [] else [s[|s| - 1]] + Reversed(s[..|s| - 1])
  }

  /** `collect_inheritance_edges(class_node)`. */
  method CollectInheritanceEdges(classNode: Node) returns (bases: seq<string>)
    requires classNode.ClassDef?
    ensures bases == BaseNames(classNode.bases)
  {
    bases := [];
    var all := classNode.bases;
    for i := 0 to |all|
      invariant bases == BaseNames(all[..i])
    {
      assert all[..i + 1][..i] == all[..i];
      var base := all[i];
      if base.Name? {
        bases := bases + [base.id];
      } else if base.Attribute? {
        var nameParts: seq<string> := [];
        var cur := base;
        while cur.Attribute?
          invariant ChainRoot(cur) == ChainRoot(base)
          invariant ChainAttrs(base) == ChainAttrs(cur) + Reversed(nameParts)
          decreases cur
        {
          assert (nameParts + [cur.attr])[..|nameParts|] == nameParts;
          nameParts := nameParts + [cur.attr];
          cur := cur.value;
        }
        assert ChainRoot(base) == cur && ChainAttrs(base) == Reversed(nameParts);
        if cur.Name? {
          assert (nameParts + [cur.id])[..|nameParts|] == nameParts;
          ghost var reversedBefore := Reversed(nameParts);
          nameParts := nameParts + [cur.id];
          assert Reversed(nameParts) == [cur.id] + reversedBefore;
          var full := Join(".", Reversed(nameParts));
          assert BaseName(base) == Some(full);
          bases := bases + [full];
        }
      }
    }
    assert all[..|all|] == all;
  }

  /** The attribute chain `root.a1.a2...` built from a root and attribute names. */
  function Chain(root: Node, attrs: seq<string>): Node
  {
    if attrs == [] then root else Attribute(Chain(root, attrs[..|attrs| - 1]), attrs[|attrs| - 1])
  }

  lemma {:induction false} ChainParts(root: Node, attrs: seq<string>)
    requires !root.Attribute?
    ensures ChainRoot(Chain(root, attrs)) == root
    ensures ChainAttrs(Chain(root, attrs)) == attrs
  {
    if attrs != [] {
      ChainParts(root, attrs[..|attrs| - 1]);
    }
  }

  /**
   * A base written `r.a1...an` gives `"r.a1...an"`, names in source order, and
   * splitting that name at its dots gives the written names back when none
   * of them holds a dot.
   */
  lemma ChainBaseName(r: string, attrs: seq<string>)
    ensures BaseName(Chain(Name(r), attrs)) == Some(Join(".", [r] + attrs))
    ensures '.' !in r && (forall i :: 0 <= i < |attrs| ==> '.' !in attrs[i]) ==>
      SplitDots(BaseName(Chain(Name(r), attrs)).value) == [r] + attrs
  {
    ChainParts(Name(r), attrs);
    if attrs == [] {
      assert Join(".", [r]) == r;
    }
    if '.' !in r && (forall i :: 0 <= i < |attrs| ==> '.' !in attrs[i]) {
      var parts := [r] + attrs;
      assert forall i :: 0 <= i < |parts| ==> '.' !in parts[i] by {
        forall i | 0 <= i < |parts| ensures '.' !in parts[i] {
          if i > 0 {
            assert parts[i] == attrs[i - 1];
          }
        }
      }
      SplitDotsJoin(parts);
    }
  }

  /** Bases that are a subscript (`Generic[T]`), a call (`make_base()`), or an
      attribute chain not rooted at a name (`f().Base`) give nothing. */
  lemma SkippedBases(v: Node, s: Node, f: Node, args: seq<Node>, attrs: seq<string>)
    ensures BaseName(Subscript(v, s)) == None
    ensures BaseName(Call(f, args)) == None
    ensures BaseName(Chain(Call(f, args), attrs)) == None
  {
    ChainParts(Call(f, args), attrs);
  }

  /** Every base name comes from a base, and the skipped bases leave no gap in
      the order of the others. */
  lemma {:induction false} BaseNamesOrder(bases: seq<Node>, k: int)
    requires 0 <= k <= |bases|
    ensures BaseNames(bases) == BaseNames(bases[..k]) + BaseNames(bases[k..])
    decreases |bases|
  {
    if k < |bases| {
      var init := bases[..|bases| - 1];
      BaseNamesOrder(init, k);
      assert init[..k] == bases[..k];
      var tail := bases[k..];
      assert tail[..|tail| - 1] == init[k..];
      assert tail[|tail| - 1] == bases[|bases| - 1];
    } else {
      assert bases[..k] == bases;
      assert bases[k..] == [];
    }
  }
}
