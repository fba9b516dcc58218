/**
 * The syntax tree that Python's `ast.parse` produces, reduced to the node
 * kinds the checks look at, and the breadth-first order in which `ast.walk`
 * visits it. Parsing itself is not modelled: a parse result is an input.
 */
module PyAst {
  import opened Wrappers

  /** One positional parameter of a `def` (an entry of `node.args.args`). */
  datatype Param = Param(name: string, annotated: bool)

  datatype NodeKind =
    | Global
      /** A call; `name` is the identifier when the callee is a plain name (`ast.Name`). */
    | Call(name: Option<string>)
    | Attribute
    | Try
      /** `def`: whether a return annotation is present, the positional parameters, the body length. */
    | FunctionDef(hasReturns: bool, params: seq<Param>, bodyLen: nat)
    | Other

  /** A node with its `lineno`, `col_offset` and the nodes `ast.iter_child_nodes` yields. */
  datatype Node = Node(kind: NodeKind, line: int, col: int, children: seq<Node>)

  /** What `ast.parse` gives: a tree, or the `SyntaxError` with its `lineno`, `offset` and `msg`. */
  datatype ParseResult =
    | Parsed(tree: Node)
    | SyntaxError(lineno: Option<int>, offset: Option<int>, msg: string)

  /** The number of nodes in a tree. */
  function Size(n: Node): nat
    decreases n, |n.children| + 1
  {
    1 + SizeFrom(n, 0)
  }

  /** The number of nodes under the children of `n` from index `i` on. */
  function SizeFrom(n: Node, i: nat): nat
    decreases n, |n.children| - i
  {
    if i >= |n.children| then 0 else Size(n.children[i]) + SizeFrom(n, i + 1)
  }

  /** The number of nodes of all trees in `q`. */
  function SizeAll(q: seq<Node>): nat
  {
    if q == [] then 0 else Size(q[0]) + SizeAll(q[1..])
  }

  lemma {:induction false} SizeAllAppend(a: seq<Node>, b: seq<Node>)
    ensures SizeAll(a + b) == SizeAll(a) + SizeAll(b)
  {
    if a == [] {
      assert a + b == b;
    } else {
      SizeAllAppend(a[1..], b);
      assert (a + b)[1..] == a[1..] + b;
    }
  }

  lemma {:induction false} SizeFromAll(n: Node, i: nat)
    requires i <= |n.children|
    ensures SizeFrom(n, i) == SizeAll(n.children[i..])
    decreases |n.children| - i
  {
    if i < |n.children| {
      SizeFromAll(n, i + 1);
      assert n.children[i..][1..] == n.children[i + 1..];
    }
  }

  lemma SizeChildren(n: Node)
    ensures Size(n) == 1 + SizeAll(n.children)
  {
    SizeFromAll(n, 0);
    assert n.children[0..] == n.children;
  }

  /** `ast.walk` over a work queue: pop the front, visit it, enqueue its children. */
  function WalkQueue(q: seq<Node>): (r: seq<Node>)
    decreases SizeAll(q)
  {
    if q == [] then []
    else
      SizeAllAppend(q[1..], q[0].children);
      SizeChildren(q[0]);
      [q[0]] + WalkQueue(q[1..] + q[0].children)
  }

  /** `list(ast.walk(n))`: every node of the tree in breadth-first order, `n` first. */
  function Walk(n: Node): (r: seq<Node>)
    ensures |r| >= 1 && r[0] == n
  {
    WalkQueue([n])
  }

  /** `m` is `n` or lies somewhere below it. */
  ghost predicate InTree(m: Node, n: Node)
    decreases n
  {
    m == n || exists i :: 0 <= i < |n.children| && InTree(m, n.children[i])
  }

  /** `m` lies in one of the trees of `q`. */
  ghost predicate InForest(m: Node, q: seq<Node>)
  {
    exists i :: 0 <= i < |q| && InTree(m, q[i])
  }

  lemma InForestAppend(m: Node, a: seq<Node>, b: seq<Node>)
    ensures InForest(m, a + b) <==> InForest(m, a) || InForest(m, b)
  {
    if InForest(m, a + b) {
      var i :| 0 <= i < |a + b| && InTree(m, (a + b)[i]);
      if i >= |a| { assert InTree(m, b[i - |a|]); }
    }
    if InForest(m, b) {
      var i :| 0 <= i < |b| && InTree(m, b[i]);
      assert InTree(m, (a + b)[|a| + i]);
    }
    if InForest(m, a) {
      var i :| 0 <= i < |a| && InTree(m, a[i]);
      assert InTree(m, (a + b)[i]);
    }
  }

  lemma InForestCons(m: Node, q: seq<Node>)
    requires q != []
    ensures InForest(m, q) <==> InTree(m, q[0]) || InForest(m, q[1..])
  {
    assert q == [q[0]] + q[1..];
    InForestAppend(m, [q[0]], q[1..]);
    assert InForest(m, [q[0]]) <==> InTree(m, q[0]);
  }

  /** The walk visits every node of the queued trees and nothing else. */
  lemma {:induction false} WalkQueueMembers(q: seq<Node>, m: Node)
    ensures m in WalkQueue(q) <==> InForest(m, q)
    decreases SizeAll(q)
  {
    if q != [] {
      var rest := q[1..] + q[0].children;
      SizeAllAppend(q[1..], q[0].children);
      SizeChildren(q[0]);
      WalkQueueMembers(rest, m);
      assert WalkQueue(q) == [q[0]] + WalkQueue(rest);
      InForestAppend(m, q[1..], q[0].children);
      InForestCons(m, q);
      assert InTree(m, q[0]) <==> m == q[0] || InForest(m, q[0].children);
    }
  }

  lemma WalkMembers(n: Node, m: Node)
    ensures m in Walk(n) <==> InTree(m, n)
  {
    WalkQueueMembers([n], m);
    InForestCons(m, [n]);
    assert InForest(m, [n][1..]) == false;
  }

  /** The walk visits each node once: its length is the size of the tree. */
  lemma {:induction false} WalkQueueLength(q: seq<Node>)
    ensures |WalkQueue(q)| == SizeAll(q)
    decreases SizeAll(q)
  {
    if q != [] {
      SizeAllAppend(q[1..], q[0].children);
      SizeChildren(q[0]);
      WalkQueueLength(q[1..] + q[0].children);
    }
  }

  lemma WalkLength(n: Node)
    ensures |Walk(n)| == Size(n)
  {
    WalkQueueLength([n]);
    assert SizeAll([n]) == Size(n) + SizeAll([]);
  }
}
