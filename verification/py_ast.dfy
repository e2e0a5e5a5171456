/**
 * The part of Python's `ast` module the graph builder looks at. A parsed file
 * is given as a tree of `Node`s (parsing itself is outside the model). Node
 * kinds the builder never distinguishes are `Other`, which keeps their
 * children so that every traversal still reaches what lies below them.
 */
module PyAst {
  import opened Strings

  /** One `name as asname` clause of an import statement. */
  datatype Alias = Alias(name: string, asname: Option<string>)

  /**
   * `FunctionDef`, `AsyncFunctionDef` and `ClassDef` carry `code`, the
   * declaration's source text as `ast.get_source_segment` and
   * `textwrap.dedent` produce it (an opaque string here). Their `body` stands
   * for all their child nodes in the order `ast.iter_child_nodes` yields
   * them (arguments, statements, decorators); a class's `bases` come first.
   * `Call.args` holds the positional arguments followed by the keyword
   * argument values. `ImportFrom.level` is the number of leading dots.
   */
  datatype Node =
    | Module(body: seq<Node>)
    | Name(id: string)
    | Attribute(value: Node, attr: string)
    | Call(func: Node, args: seq<Node>)
    | Subscript(value: Node, slice: Node)
    | FunctionDef(name: string, lineno: int, code: string, body: seq<Node>)
    | AsyncFunctionDef(name: string, lineno: int, code: string, body: seq<Node>)
    | ClassDef(name: string, lineno: int, code: string, bases: seq<Node>, body: seq<Node>)
    | Import(names: seq<Alias>, lineno: int)
    | ImportFrom(fromModule: Option<string>, names: seq<Alias>, level: nat, lineno: int)
    | Other(children: seq<Node>)

  /** `ast.iter_child_nodes`, in field order. */
  function Children(n: Node): seq<Node>
  {
    match n
    case Module(body) => body
    case Name(_) => []
    case Attribute(v, _) => [v]
    case Call(f, args) => [f] + args
    case Subscript(v, s) => [v, s]
    case FunctionDef(_, _, _, body) => body
    case AsyncFunctionDef(_, _, _, body) => body
    case ClassDef(_, _, _, bases, body) => bases + body
    case Import(_, _) => []
    case ImportFrom(_, _, _, _) => []
    case Other(cs) => cs
  }

  /** Number of nodes in a tree; the measure that makes traversals terminate. */
  function Size(n: Node): nat
  {
    match n
    case Module(body) => 1 + SizeSeq(body)
    case Name(_) => 1
    case Attribute(v, _) => 1 + Size(v)
    case Call(f, args) => 1 + Size(f) + SizeSeq(args)
    case Subscript(v, s) => 1 + Size(v) + Size(s)
    case FunctionDef(_, _, _, body) => 1 + SizeSeq(body)
    case AsyncFunctionDef(_, _, _, body) => 1 + SizeSeq(body)
    case ClassDef(_, _, _, bases, body) => 1 + SizeSeq(bases) + SizeSeq(body)
    case Import(_, _) => 1
    case ImportFrom(_, _, _, _) => 1
    case Other(cs) => 1 + SizeSeq(cs)
  }

  function SizeSeq(s: seq<Node>): nat
  {
    if s == [] then 0 else Size(s[0]) + SizeSeq(s[1..])
  }

  lemma {:induction false} SizeSeqConcat(a: seq<Node>, b: seq<Node>)
    ensures SizeSeq(a + b) == SizeSeq(a) + SizeSeq(b)
  {
    if a != [] {
      assert (a + b)[0] == a[0] && (a + b)[1..] == a[1..] + b;
      SizeSeqConcat(a[1..], b);
    } else {
      assert a + b == b;
    }
  }

  /** The children of a node together are one node smaller than the node. */
  lemma SizeChildren(n: Node)
    ensures SizeSeq(Children(n)) == Size(n) - 1
  {
    match n
    case Call(f, args) =>
      assert ([f] + args)[1..] == args;
    case Subscript(v, s) =>
      assert [v, s][1..] == [s] && [s][1..] == [];
      assert SizeSeq([s]) == Size(s);
    case Attribute(v, _) =>
      assert [v][1..] == [];
    case ClassDef(_, _, _, bases, body) =>
      SizeSeqConcat(bases, body);
    case _ =>
  }

  lemma {:induction false} SizeSeqElement(s: seq<Node>, i: int)
    requires 0 <= i < |s|
    ensures Size(s[i]) <= SizeSeq(s)
  {
    if i > 0 {
      SizeSeqElement(s[1..], i - 1);
    }
  }

  /** Every child of a node is smaller than the node. */
  lemma ChildSmaller(n: Node, i: int)
    requires 0 <= i < |Children(n)|
    ensures Size(Children(n)[i]) < Size(n)
  {
    SizeChildren(n);
    SizeSeqElement(Children(n), i);
  }

  /** The nodes `ast.walk` yields from a work queue: the first node of the
      queue, then those of the rest of the queue with the first node's
      children appended (breadth-first, as `collections.deque` is used). */
  function WalkFrom(todo: seq<Node>): seq<Node>
    decreases SizeSeq(todo)
  {
    if todo == [] then []
    else
      SizeSeqConcat(todo[1..], Children(todo[0]));
      SizeChildren(todo[0]);
      [todo[0]] + WalkFrom(todo[1..] + Children(todo[0]))
  }

  /** `ast.walk(tree)`. */
  function Walk(tree: Node): seq<Node>
  {
    WalkFrom([tree])
  }

  /** `x` is `n` or lies somewhere below it. */
  predicate Occurs(x: Node, n: Node)
    decreases Size(n), 0
  {
    SizeChildren(n);
    x == n || OccursIn(x, Children(n))
  }

  /** `x` occurs in one of the trees of `s`. */
  predicate OccursIn(x: Node, s: seq<Node>)
    decreases SizeSeq(s), 1
  {
    s != [] && (Occurs(x, s[0]) || OccursIn(x, s[1..]))
  }

  lemma {:induction false} OccursInConcat(x: Node, a: seq<Node>, b: seq<Node>)
    ensures OccursIn(x, a + b) <==> OccursIn(x, a) || OccursIn(x, b)
    decreases |a|
  {
    if a != [] {
      assert (a + b)[0] == a[0] && (a + b)[1..] == a[1..] + b;
      OccursInConcat(x, a[1..], b);
    } else {
      assert a + b == b;
    }
  }

  /** The queue walk yields exactly the nodes lying in the queued trees. */
  lemma {:induction false} WalkFromCovers(x: Node, todo: seq<Node>)
    ensures x in WalkFrom(todo) <==> OccursIn(x, todo)
    decreases SizeSeq(todo)
  {
    if todo != [] {
      var rest := todo[1..] + Children(todo[0]);
      SizeSeqConcat(todo[1..], Children(todo[0]));
      SizeChildren(todo[0]);
      WalkFromCovers(x, rest);
      OccursInConcat(x, todo[1..], Children(todo[0]));
    }
  }

  /** `ast.walk(tree)` visits every node of the tree, nested ones included,
      and nothing else. */
  lemma WalkCovers(x: Node, tree: Node)
    ensures x in Walk(tree) <==> Occurs(x, tree)
  {
    WalkFromCovers(x, [tree]);
    assert [tree][1..] == [];
  }
}
