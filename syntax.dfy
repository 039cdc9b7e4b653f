/** The parse tree shared by the parser and the code generator. Its node
    kinds are the union of the variants the parser snapshots and the
    generator use: `Expression`, `AssignExpr` and `ReturnStatement` occur
    only in the newer files. */
module Syntax {

  datatype NodeType =
    | ProgramStart | FunctionDeclaration | Primitive | Identifier | Body
    | OptionalExpr | ConditionExpr
    | ArithExpr | ArithSubexpr | ArithTerm | ArithSubterm | ArithFactor
    | BoolExpr | BoolSubexpr | BoolTerm | BoolSubterm | BoolFactor | BoolSubfactor | BoolOperand
    | RelationalExpr | Statement | IfStmt | ElifStmt | ElseStmt | WhileStmt | ForStmt | ReturnStmt
    | VarDecl | Keyword | Constant | Operator | Separator
    | Expression | AssignExpr | ReturnStatement

  /** A tree node: its kind, its children in order, and string properties
      such as "value", "terminal", "operator" and "identifier". */
  datatype Node = Node(kind: NodeType, children: seq<Node>, properties: map<string, string>)

  /** `create_node`: a node of the given kind with nothing in it. */
  function CreateNode(kind: NodeType): (n: Node)
    ensures n.kind == kind && n.children == [] && n.properties == map[]
  {
    Node(kind, [], map[])
  }

  /** The kinds of a sequence of nodes. */
  function Kinds(ns: seq<Node>): (ks: seq<NodeType>)
    ensures |ks| == |ns|
    ensures forall i :: 0 <= i < |ns| ==> ks[i] == ns[i].kind
  {
    seq(|ns|, i requires 0 <= i < |ns| => ns[i].kind)
  }

  /** `r` is `n` with children of the kinds `ks` appended, in that order. */
  predicate Appended(n: Node, r: Node, ks: seq<NodeType>) {
    && r.kind == n.kind
    && |r.children| == |n.children| + |ks|
    && r.children[..|n.children|] == n.children
    && Kinds(r.children[|n.children|..]) == ks
  }

  /** `children.push`: one more child at the end. */
  function Push(n: Node, child: Node): (r: Node)
    ensures Appended(n, r, [child.kind]) && r.children == n.children + [child] && r.properties == n.properties
  {
    var r := n.(children := n.children + [child]);
    assert r.children[|n.children|..] == [child];
    r
  }

  /** Several `children.push` calls in a row. */
  function PushAll(n: Node, cs: seq<Node>): (r: Node)
    ensures Appended(n, r, Kinds(cs)) && r.children == n.children + cs && r.properties == n.properties
  {
    var r := n.(children := n.children + cs);
    assert r.children[|n.children|..] == cs;
    r
  }

  lemma AppendedPair(n: Node, a: Node, b: Node)
    ensures Appended(n, PushAll(n, [a, b]), [a.kind, b.kind])
  {
    assert Kinds([a, b]) == [a.kind, b.kind];
  }

  lemma AppendedTriple(n: Node, a: Node, b: Node, c: Node)
    ensures Appended(n, PushAll(n, [a, b, c]), [a.kind, b.kind, c.kind])
  {
    assert Kinds([a, b, c]) == [a.kind, b.kind, c.kind];
  }

  lemma AppendedQuad(n: Node, a: Node, b: Node, c: Node, d: Node)
    ensures Appended(n, PushAll(n, [a, b, c, d]), [a.kind, b.kind, c.kind, d.kind])
  {
    assert Kinds([a, b, c, d]) == [a.kind, b.kind, c.kind, d.kind];
  }

  lemma AppendedQuint(n: Node, a: Node, b: Node, c: Node, d: Node, e: Node)
    ensures Appended(n, PushAll(n, [a, b, c, d, e]), [a.kind, b.kind, c.kind, d.kind, e.kind])
  {
    assert Kinds([a, b, c, d, e]) == [a.kind, b.kind, c.kind, d.kind, e.kind];
  }

  /** Appending twice is appending the two kind sequences in order. */
  lemma AppendedTrans(n: Node, m: Node, r: Node, ks1: seq<NodeType>, ks2: seq<NodeType>)
    requires Appended(n, m, ks1) && Appended(m, r, ks2)
    ensures Appended(n, r, ks1 + ks2)
  {
    assert r.children[..|n.children|] == m.children[..|n.children|];
    var tail := r.children[|n.children|..];
    assert tail == m.children[|n.children|..] + r.children[|m.children|..];
    assert Kinds(tail) == ks1 + ks2;
  }

  /** `properties.insert(key, value)`. */
  function WithProperty(n: Node, key: string, value: string): Node {
    n.(properties := n.properties[key := value])
  }

  /** `properties` with `key` copied from `from`, when `from` has that key. */
  function CopyKey(properties: map<string, string>, from: Node, key: string): map<string, string> {
    if key in from.properties then properties[key := from.properties[key]] else properties
  }
}
