/** The recursive-descent parser: one shared token cursor, one production
    per node kind, and the symbol tables the declarations write to.

    Two snapshots of the productions exist. `Monolithic` follows parse_c.rs,
    where every production lives and declarations go into the flat table of
    that file. `Split` follows expression_c.rs and statement_c.rs, where the
    statement and expression productions were rewritten and declarations
    go into the top frame of the scope stack of symbol_table_c.rs. The
    productions that are the same text in both (the arithmetic and boolean
    chains, relational, condition, return, body, if, elif, else, while) are
    modelled once.

    A Rust panic (an index past the end of the tokens, a missing property
    key, an `unwrap` of `None`, `is_identifier` on an empty token, an empty
    scope stack) ends the parse with status `Panic`; nothing after it is
    observable. Nodes are values: a production takes the node it fills and
    returns the filled node, so a node the source reuses after a failed
    attempt is passed back in as it was left. */
module Parser {
  import opened Common
  import opened Syntax
  import Lexer
  import FlatSymbols
  import SymbolTables

  datatype Snapshot = Monolithic | Split

  /** `true` is `Accept`, `false` is `Reject`. */
  datatype Status = Accept | Reject | Panic

  predicate IsTerminal(k: NodeType) {
    k == Primitive || k == Identifier || k == Separator || k == Keyword || k == Operator || k == Constant
  }

  /** The token type `parse_terminal` is called with for a terminal kind. */
  function TerminalType(k: NodeType): Lexer.TokenType {
    if k == Primitive then Lexer.TokenType.Primitive
    else if k == Identifier then Lexer.TokenType.Identifier
    else if k == Separator then Lexer.TokenType.Separator
    else if k == Keyword then Lexer.TokenType.Keyword
    else if k == Operator then Lexer.TokenType.Operator
    else if k == Constant then Lexer.TokenType.Constant
    else Lexer.TokenType.Default
  }

  /** Productions that never succeed without consuming a token. */
  predicate Consumes(k: NodeType) {
    || IsTerminal(k)
    || k == ProgramStart || k == FunctionDeclaration || k == Statement || k == VarDecl || k == AssignExpr
    || k == ReturnStmt || k == IfStmt || k == WhileStmt || k == ForStmt
    || k == ArithFactor || k == ArithTerm || k == ArithExpr || k == RelationalExpr
    || k == BoolOperand || k == BoolFactor || k == BoolTerm || k == BoolExpr || k == ConditionExpr || k == Expression
  }

  predicate IsArith(k: NodeType) {
    k == ArithExpr || k == ArithSubexpr || k == ArithTerm || k == ArithSubterm || k == ArithFactor
  }

  predicate IsBool(k: NodeType) {
    || k == BoolExpr || k == BoolSubexpr || k == BoolTerm || k == BoolSubterm || k == BoolFactor
    || k == BoolSubfactor || k == BoolOperand
  }

  /** Non-terminal productions that never change a symbol table. */
  predicate KeepsTables(k: NodeType) {
    || IsArith(k) || IsBool(k)
    || k == RelationalExpr || k == ConditionExpr || k == Expression || k == AssignExpr || k == ReturnStmt
    || k == ReturnStatement
  }

  predicate IsControl(k: NodeType) {
    k == IfStmt || k == ElifStmt || k == ElseStmt || k == WhileStmt || k == ForStmt
  }

  /** Productions whose first step is an arithmetic factor. */
  predicate StartsWithFactor(k: NodeType) {
    k == ArithFactor || k == ArithTerm || k == ArithExpr
  }

  /** Productions whose first step is a boolean operand (through a condition
      in the case of an expression). */
  predicate StartsWithBoolOperand(k: NodeType) {
    k == BoolOperand || k == BoolFactor || k == BoolTerm || k == BoolExpr || k == ConditionExpr || k == Expression
  }

  /** The optional tails of the boolean chains. */
  predicate IsBoolTail(k: NodeType) {
    k == BoolSubexpr || k == BoolSubterm || k == BoolSubfactor
  }

  /** The optional tails of the arithmetic chains. */
  predicate IsArithTail(k: NodeType) {
    k == ArithSubexpr || k == ArithSubterm
  }

  /** Productions that reject a separator token without moving the cursor. */
  predicate RejectsAtSeparator(k: NodeType) {
    StartsWithFactor(k) || k == RelationalExpr || StartsWithBoolOperand(k) || StartsWithName(k)
  }

  /** Productions whose first step is a primitive or identifier terminal. */
  predicate StartsWithName(k: NodeType) {
    k == VarDecl || k == AssignExpr
  }

  /** Every expression kind goes to the table-keeping part of `parse`. */
  lemma ExpressionKindsKeepTables(k: NodeType)
    ensures StartsWithFactor(k) || StartsWithBoolOperand(k) || IsBoolTail(k) || IsArithTail(k) || k == RelationalExpr || k == AssignExpr ==>
              KeepsTables(k) && !IsTerminal(k)
  {
  }

  /** The initialised declaration `n` with its five parts pushed and its
      `identifier` property read back from the second child, or `None` when
      that child has no value. */
  function NamedDeclaration(n: Node, prim: Node, name: Node, op: Node, expr: Node, semicolon: Node): (r: Option<(Node, string)>)
    ensures r.Some? ==> && Appended(n, r.value.0, [prim.kind, name.kind, op.kind, expr.kind, semicolon.kind])
                        && r.value.0.properties == n.properties["identifier" := r.value.1]
    ensures n.children == [] && "value" in name.properties ==> r.Some? && r.value.1 == name.properties["value"]
  {
    AppendedQuint(n, prim, name, op, expr, semicolon);
    var next := PushAll(n, [prim, name, op, expr, semicolon]);
    var second := next.children[1];
    if "value" !in second.properties then None
    else Some((WithProperty(next, "identifier", second.properties["value"]), second.properties["value"]))
  }

  /** The reassignment node `n` with its four parts pushed and its
      `identifier` property read from the first child, or `None` when that
      child has no value. */
  function NamedAssignment(n: Node, name: Node, op: Node, expr: Node, semicolon: Node): (r: Option<Node>)
    ensures r.Some? ==> Appended(n, r.value, [name.kind, op.kind, expr.kind, semicolon.kind])
    ensures n.children == [] && "value" in name.properties ==>
              r.Some? && r.value.properties == n.properties["identifier" := name.properties["value"]]
  {
    AppendedQuad(n, name, op, expr, semicolon);
    var cur := PushAll(n, [name, op, expr, semicolon]);
    var first := cur.children[0];
    if "value" !in first.properties then None
    else Some(WithProperty(cur, "identifier", first.properties["value"]))
  }

  /** A production may call one of lower rank without consuming a token first. */
  function Rank(k: NodeType): nat {
    match k
    case ProgramStart => 17
    case FunctionDeclaration => 16
    case Body => 15
    case Statement => 14
    case IfStmt | ElifStmt => 13
    case OptionalExpr | ReturnStmt | ElseStmt | WhileStmt | ForStmt => 12
    case VarDecl => 11
    case AssignExpr => 10
    case Expression => 9
    case ConditionExpr => 8
    case BoolExpr | RelationalExpr => 7
    case BoolSubexpr => 6
    case ArithExpr | BoolTerm => 5
    case ArithSubexpr | BoolSubterm => 4
    case ArithTerm | BoolFactor => 3
    case ArithSubterm | BoolSubfactor => 2
    case ArithFactor | BoolOperand => 1
    case _ => 0
  }

  /** The right-hand side parsed after `name =` in parse_c.rs, by declared type. */
  function MonolithicRhsKind(prim: string): NodeType {
    if prim == "int" then ArithExpr else if prim == "bool" then ConditionExpr else RelationalExpr
  }

  /** The right-hand side of an assignment in expression_c.rs, by declared type. */
  function SplitRhsKind(prim: string): NodeType {
    if prim == "bool" then ConditionExpr else ArithExpr
  }

  /** The frames after `scope_bind(id, prim, false)`. */
  function BindTop(ts: seq<SymbolTables.Frame>, id: string, prim: string): seq<SymbolTables.Frame>
    requires |ts| > 0
  {
    var top := ts[|ts| - 1];
    ts[|ts| - 1 := SymbolTables.Frame(top.table[id := SymbolTables.NewSymbol(prim, top.ordinal, false)], top.ordinal + 1)]
  }

  class Parser {
    const snapshot: Snapshot
    const tokens: seq<Lexer.Token>
    /** `CURRENT_TOKEN_INDEX`. */
    var cursor: nat
    /** The table of parse_c.rs, written by the `Monolithic` declarations. */
    const flat: FlatSymbols.STManager
    /** The scope stack, written and read by the `Split` productions. */
    const scopes: SymbolTables.STManager

    ghost predicate Valid()
      reads this, scopes
    {
      cursor <= |tokens| && scopes.Valid()
    }

    constructor (snapshot: Snapshot, tokens: seq<Lexer.Token>, flat: FlatSymbols.STManager, scopes: SymbolTables.STManager)
      requires scopes.Valid()
      ensures this.snapshot == snapshot && this.tokens == tokens && this.flat == flat && this.scopes == scopes
      ensures cursor == 0 && Valid()
    {
      this.snapshot := snapshot;
      this.tokens := tokens;
      this.flat := flat;
      this.scopes := scopes;
      cursor := 0;
    }

    // -------------------------------------------------------------------------
    // The cursor

    function GetCurrentTokenIndex(): (i: nat)
      reads this
      ensures i == cursor
    {
      cursor
    }

    /** `token_lookahead`: the index after the cursor; the cursor stays. */
    function TokenLookahead(): (i: nat)
      reads this
      ensures i == cursor + 1
    {
      cursor + 1
    }

    method NextTokenIndex() returns (i: nat)
      modifies this
      ensures cursor == old(cursor) + 1 && i == cursor
    {
      cursor := cursor + 1;
      i := cursor;
    }

    /** `prev_token_index`; the u32 cursor cannot go below 0. */
    method PrevTokenIndex() returns (i: nat)
      requires cursor > 0
      modifies this
      ensures cursor == old(cursor) - 1 && i == cursor
    {
      cursor := cursor - 1;
      i := cursor;
    }

    // -------------------------------------------------------------------------
    // Specifications shared by several productions

    /** What `parse_terminal` does between cursor `c0` and `c1`. */
    ghost predicate TerminalSpec(tt: Lexer.TokenType, c0: nat, c1: nat, st: Status, n: Node, r: Node) {
      && (st == Panic <==> c0 >= |tokens|)
      && (st == Accept <==> c0 < |tokens| && tokens[c0].tokenType == tt)
      && (st == Accept ==> c0 < |tokens| && c1 == c0 + 1 && r == WithProperty(n, "value", tokens[c0].val))
      && (st != Accept ==> c1 == c0 && r == n)
    }

    /** The token at `c` is neither an identifier nor a constant, so no
        arithmetic operand starts there. */
    ghost predicate NoOperandAt(c: nat) {
      c < |tokens| && tokens[c].tokenType != Lexer.TokenType.Identifier && tokens[c].tokenType != Lexer.TokenType.Constant
    }

    ghost predicate KeywordAt(c: nat) {
      c < |tokens| && tokens[c].tokenType == Lexer.TokenType.Keyword
    }

    ghost predicate OperatorOrSeparatorAt(c: nat) {
      c < |tokens| && (Lexer.IsOperator(tokens[c].val) || Lexer.IsSeparator(tokens[c].val))
    }

    /** A separator token: of separator type, with a separator's text. */
    ghost predicate SeparatorAt(c: nat) {
      c < |tokens| && tokens[c].tokenType == Lexer.TokenType.Separator && Lexer.IsSeparator(tokens[c].val)
    }

    /** An operator or separator after which an arithmetic expression stops:
        no operand and no `+ - * /` chain starts there. */
    ghost predicate EndsArith(c: nat) {
      NoOperandAt(c) && OperatorOrSeparatorAt(c) && tokens[c].val !in {"+", "-", "*", "/"}
    }

    /** A one-token arithmetic expression at `c`: a name or a constant, then
        a token that ends it. */
    ghost predicate LoneArithAt(c: nat) {
      && c < |tokens|
      && (tokens[c].tokenType == Lexer.TokenType.Identifier || tokens[c].tokenType == Lexer.TokenType.Constant)
      && EndsArith(c + 1)
    }

    /** An operator or separator after which a boolean expression stops: no
        `== != && ||` chain starts there. */
    ghost predicate EndsBool(c: nat) {
      OperatorOrSeparatorAt(c) && tokens[c].val !in {"==", "!=", "&&", "||"}
    }

    /** A name at `c` that `scope_lookup` finds in the frames `ts`. */
    ghost predicate DeclaredAt(c: nat, ts: seq<SymbolTables.Frame>) {
      && c < |tokens| && tokens[c].tokenType == Lexer.TokenType.Identifier && |ts| > 0
      && SymbolTables.Resolve(ts, tokens[c].val).Some?
    }

    /** The name at `c` is declared `bool` in `ts`. */
    ghost predicate DeclaredBoolAt(c: nat, ts: seq<SymbolTables.Frame>) {
      DeclaredAt(c, ts) && SymbolTables.Resolve(ts, tokens[c].val).value.primitive == "bool"
    }

    /** A one-token boolean expression at `c`: a keyword, or in expression_c.rs
        a name declared `bool` in `ts`, then a token that ends it. */
    ghost predicate LoneBoolAt(c: nat, ts: seq<SymbolTables.Frame>) {
      (KeywordAt(c) || (snapshot == Split && DeclaredBoolAt(c, ts))) && EndsBool(c + 1)
    }

    /** `name = operand` at `c` for a name declared `int` in `ts`, where the
        right-hand side is a one-token arithmetic expression. */
    ghost predicate SimpleAssignAt(c: nat, ts: seq<SymbolTables.Frame>) {
      && c + 1 < |tokens| && DeclaredAt(c, ts)
      && SymbolTables.Resolve(ts, tokens[c].val).value.primitive == "int"
      && tokens[c + 1].val == "=" && tokens[c + 1].tokenType == Lexer.TokenType.Operator
      && LoneArithAt(c + 2)
    }

    // -------------------------------------------------------------------------
    // parse_c.rs: the dispatcher and the terminals

    /** `parse`: runs the production of the node's kind. The source's one
        `match` on the kind is written here as a dispatch by group of kinds. */
    method Parse(n: Node) returns (st: Status, r: Node)
      requires Valid()
      modifies this, flat, scopes.stack
      ensures Valid() && (st != Panic ==> old(cursor) <= cursor) && r.kind == n.kind
      ensures KeepsTables(n.kind) ==> unchanged(scopes.stack)
      ensures IsTerminal(n.kind) ==> TerminalSpec(TerminalType(n.kind), old(cursor), cursor, st, n, r)
      ensures Consumes(n.kind) && st == Accept ==> old(cursor) < cursor
      ensures StartsWithName(n.kind) && KeywordAt(old(cursor)) ==>
                st == Reject && cursor == old(cursor) && r == n
      ensures StartsWithFactor(n.kind) && n.children == [] && LoneArithAt(old(cursor)) ==> st == Accept && cursor == old(cursor) + 1
      ensures StartsWithBoolOperand(n.kind) && LoneBoolAt(old(cursor), old(scopes.Tables())) ==> st == Accept && cursor == old(cursor) + 1
      ensures IsBoolTail(n.kind) && EndsBool(old(cursor)) ==> st == Accept && r == n && cursor == old(cursor)
      ensures RejectsAtSeparator(n.kind) && SeparatorAt(old(cursor)) ==> st == Reject && cursor == old(cursor) && r == n
      ensures n.kind == AssignExpr && n.children == [] && SimpleAssignAt(old(cursor), old(scopes.Tables())) ==> st == Accept && cursor == old(cursor) + 3
      ensures n.kind == AssignExpr && DeclaredAt(old(cursor), old(scopes.Tables())) && old(cursor) + 1 < |tokens| && tokens[old(cursor) + 1].val != "=" ==>
                st == Reject && cursor == old(cursor) && r == n
      ensures n.kind == VarDecl && snapshot == Split && old(cursor) < |tokens| && tokens[old(cursor)].tokenType != Lexer.TokenType.Primitive ==>
                st == Reject && cursor == old(cursor) && r == n && unchanged(scopes.stack)
      decreases |tokens| - cursor, Rank(n.kind), 4
    {
      ExpressionKindsKeepTables(n.kind);
      if IsTerminal(n.kind) {
        st, r := ParseTerminal(n);
      } else if KeepsTables(n.kind) {
        st, r := ParseKeepingTables(n);
      } else if IsControl(n.kind) {
        st, r := ParseControl(n);
      } else {
        st, r := ParseDeclaration(n);
      }
    }

    /** The part of `parse` for the kinds whose productions read the symbol
        tables but never write them: expressions, assignments and return
        statements. */
    method ParseKeepingTables(n: Node) returns (st: Status, r: Node)
      requires Valid() && KeepsTables(n.kind)
      modifies this
      ensures Valid() && (st != Panic ==> old(cursor) <= cursor) && r.kind == n.kind
      ensures Consumes(n.kind) && st == Accept ==> old(cursor) < cursor
      ensures StartsWithFactor(n.kind) && NoOperandAt(old(cursor)) ==>
                st == Reject && cursor == old(cursor) && r == n
      ensures StartsWithName(n.kind) && KeywordAt(old(cursor)) ==>
                st == Reject && cursor == old(cursor) && r == n
      ensures StartsWithFactor(n.kind) && n.children == [] && LoneArithAt(old(cursor)) ==> st == Accept && cursor == old(cursor) + 1
      ensures StartsWithBoolOperand(n.kind) && LoneBoolAt(old(cursor), old(scopes.Tables())) ==> st == Accept && cursor == old(cursor) + 1
      ensures IsBoolTail(n.kind) && EndsBool(old(cursor)) ==> st == Accept && r == n && cursor == old(cursor)
      ensures RejectsAtSeparator(n.kind) && SeparatorAt(old(cursor)) ==> st == Reject && cursor == old(cursor) && r == n
      ensures n.kind == AssignExpr && n.children == [] && SimpleAssignAt(old(cursor), old(scopes.Tables())) ==> st == Accept && cursor == old(cursor) + 3
      ensures n.kind == AssignExpr && DeclaredAt(old(cursor), old(scopes.Tables())) && old(cursor) + 1 < |tokens| && tokens[old(cursor) + 1].val != "=" ==>
                st == Reject && cursor == old(cursor) && r == n
      ensures IsArithTail(n.kind) && EndsArith(old(cursor)) ==> st == Accept && r == n && cursor == old(cursor)
      ensures (n.kind == ArithFactor || n.kind == ArithTerm) && st == Accept ==> "terminal" in r.properties
      decreases |tokens| - cursor, Rank(n.kind), 3
    {
      if IsArith(n.kind) {
        st, r := ParseArith(n);
      } else if IsBool(n.kind) {
        st, r := ParseBool(n);
      } else if n.kind == RelationalExpr {
        st, r := ParseRelationalExpr(n);
      } else if n.kind == ConditionExpr {
        st, r := ParseCondExpr(n);
      } else if n.kind == Expression {
        st, r := ParseExpr(n);
      } else if n.kind == AssignExpr {
        st, r := ParseAssignExpr(n);
      } else if n.kind == ReturnStmt {
        st, r := ParseRetStmt(n);
      } else {
        // `ReturnStatement` has no production in `parse`.
        st, r := Reject, n;
      }
    }

    /** The part of `parse` for the arithmetic kinds. */
    method ParseArith(n: Node) returns (st: Status, r: Node)
      requires Valid() && IsArith(n.kind)
      modifies this
      ensures Valid() && (st != Panic ==> old(cursor) <= cursor) && r.kind == n.kind
      ensures Consumes(n.kind) && st == Accept ==> old(cursor) < cursor
      ensures StartsWithFactor(n.kind) && NoOperandAt(old(cursor)) ==>
                st == Reject && cursor == old(cursor) && r == n
      ensures StartsWithFactor(n.kind) && n.children == [] && LoneArithAt(old(cursor)) ==> st == Accept && cursor == old(cursor) + 1
      ensures IsArithTail(n.kind) && EndsArith(old(cursor)) ==> st == Accept && r == n && cursor == old(cursor)
      ensures (n.kind == ArithFactor || n.kind == ArithTerm) && st == Accept ==> "terminal" in r.properties
      decreases |tokens| - cursor, Rank(n.kind), 2
    {
      if n.kind == ArithExpr {
        st, r := ParseArithExpr(n);
      } else if n.kind == ArithSubexpr {
        st, r := ParseArithSubexpr(n);
      } else if n.kind == ArithTerm {
        st, r := ParseArithTerm(n);
      } else if n.kind == ArithSubterm {
        st, r := ParseArithSubterm(n);
      } else {
        st, r := ParseArithFactor(n);
      }
    }

    /** The part of `parse` for the boolean kinds. */
    method ParseBool(n: Node) returns (st: Status, r: Node)
      requires Valid() && IsBool(n.kind)
      modifies this
      ensures Valid() && (st != Panic ==> old(cursor) <= cursor) && r.kind == n.kind
      ensures Consumes(n.kind) && st == Accept ==> old(cursor) < cursor
      ensures StartsWithBoolOperand(n.kind) && LoneBoolAt(old(cursor), old(scopes.Tables())) ==> st == Accept && cursor == old(cursor) + 1
      ensures IsBoolTail(n.kind) && EndsBool(old(cursor)) ==> st == Accept && r == n && cursor == old(cursor)
      ensures StartsWithBoolOperand(n.kind) && SeparatorAt(old(cursor)) ==> st == Reject && cursor == old(cursor) && r == n
      decreases |tokens| - cursor, Rank(n.kind), 2
    {
      if n.kind == BoolExpr {
        st, r := ParseBoolExpr(n);
      } else if n.kind == BoolSubexpr {
        st, r := ParseBoolSubexpr(n);
      } else if n.kind == BoolTerm {
        st, r := ParseBoolTerm(n);
      } else if n.kind == BoolSubterm {
        st, r := ParseBoolSubterm(n);
      } else if n.kind == BoolFactor {
        st, r := ParseBoolFactor(n);
      } else if n.kind == BoolSubfactor {
        st, r := ParseBoolSubfactor(n);
      } else {
        st, r := ParseBoolOperand(n);
      }
    }

    /** The part of `parse` for the control statements. */
    method ParseControl(n: Node) returns (st: Status, r: Node)
      requires Valid() && IsControl(n.kind)
      modifies this, flat, scopes.stack
      ensures Valid() && (st != Panic ==> old(cursor) <= cursor) && r.kind == n.kind
      ensures Consumes(n.kind) && st == Accept ==> old(cursor) < cursor
      decreases |tokens| - cursor, Rank(n.kind), 2
    {
      if n.kind == IfStmt {
        st, r := ParseIfStmt(n);
      } else if n.kind == ElifStmt {
        st, r := ParseElifStmt(n);
      } else if n.kind == ElseStmt {
        st, r := ParseElseStmt(n);
      } else if n.kind == WhileStmt {
        st, r := ParseWhileStmt(n);
      } else {
        st, r := ParseForStmt(n);
      }
    }

    /** The part of `parse` for the program, declarations, bodies and
        statements; three of these productions differ between the snapshots. */
    method ParseDeclaration(n: Node) returns (st: Status, r: Node)
      requires Valid() && !IsTerminal(n.kind) && !KeepsTables(n.kind) && !IsControl(n.kind)
      modifies this, flat, scopes.stack
      ensures Valid() && (st != Panic ==> old(cursor) <= cursor) && r.kind == n.kind
      ensures Consumes(n.kind) && st == Accept ==> old(cursor) < cursor
      ensures n.kind == VarDecl && KeywordAt(old(cursor)) ==>
                st == Reject && cursor == old(cursor) && r == n
      ensures n.kind == VarDecl && SeparatorAt(old(cursor)) ==> st == Reject && cursor == old(cursor) && r == n
      ensures n.kind == VarDecl && snapshot == Split && old(cursor) < |tokens| && tokens[old(cursor)].tokenType != Lexer.TokenType.Primitive ==>
                st == Reject && cursor == old(cursor) && r == n && unchanged(scopes.stack)
      decreases |tokens| - cursor, Rank(n.kind), 2
    {
      if n.kind == ProgramStart {
        st, r := ParseStartNode(n);
      } else if n.kind == FunctionDeclaration {
        st, r := ParseFuncDecl(n);
      } else if n.kind == Body {
        st, r := ParseBody(n);
      } else if n.kind == OptionalExpr {
        if snapshot == Monolithic {
          st, r := ParseOptionalExprMonolithic(n);
        } else {
          st, r := ParseOptionalExprSplit(n);
        }
      } else if n.kind == Statement {
        if snapshot == Monolithic {
          st, r := ParseStatementMonolithic(n);
        } else {
          st, r := ParseStatementSplit(n);
        }
      } else {
        if snapshot == Monolithic {
          st, r := ParseVarDeclMonolithic(n);
        } else {
          st, r := ParseVarDeclSplit(n);
        }
      }
    }

    /** `parse_terminal`, called with the token type of the node's kind:
        accepts the current token iff it has that type, recording its text
        as "value" and moving past it. */
    method ParseTerminal(n: Node) returns (st: Status, r: Node)
      requires Valid() && IsTerminal(n.kind)
      modifies this
      ensures Valid()
      ensures TerminalSpec(TerminalType(n.kind), old(cursor), cursor, st, n, r)
    {
      if cursor >= |tokens| {
        return Panic, n;
      }
      if TerminalType(n.kind) == tokens[cursor].tokenType {
        r := WithProperty(n, "value", tokens[cursor].val);
        var _ := NextTokenIndex();
        return Accept, r;
      }
      return Reject, n;
    }

    // -------------------------------------------------------------------------
    // parse_c.rs: program and function declaration

    method ParseStartNode(n: Node) returns (st: Status, r: Node)
      requires Valid()
      modifies this, flat, scopes.stack
      ensures Valid() && (st != Panic ==> old(cursor) <= cursor) && r.kind == n.kind
      ensures st == Accept ==> Appended(n, r, [FunctionDeclaration]) && old(cursor) < cursor
      ensures st != Accept ==> r == n
      decreases |tokens| - cursor, Rank(ProgramStart), 1
    {
      var sDecl, decl := Parse(CreateNode(FunctionDeclaration));
      if sDecl == Accept {
        return Accept, Push(n, decl);
      }
      return sDecl, n;
    }

    /** `primitive identifier ( ) { body }`. */
    method ParseFuncDecl(n: Node) returns (st: Status, r: Node)
      requires Valid()
      modifies this, flat, scopes.stack
      ensures Valid() && (st != Panic ==> old(cursor) <= cursor) && r.kind == n.kind
      ensures st == Accept ==>
                && Appended(n, r, [Primitive, Identifier, Separator, Separator, Separator, Body, Separator])
                && old(cursor) + 1 < |tokens| && old(cursor) < cursor
                && tokens[old(cursor)].tokenType == Lexer.TokenType.Primitive
                && tokens[old(cursor) + 1].tokenType == Lexer.TokenType.Identifier
                && r.children[|n.children|].properties == map["value" := tokens[old(cursor)].val]
                && r.children[|n.children| + 1].properties == map["value" := tokens[old(cursor) + 1].val]
      ensures st != Accept ==> r == n
      decreases |tokens| - cursor, Rank(FunctionDeclaration), 1
    {
      var s1, prim := ParseTerminal(CreateNode(Primitive));
      if s1 != Accept { return s1, n; }
      var s2, name := ParseTerminal(CreateNode(Identifier));
      if s2 != Accept { return s2, n; }
      AppendedPair(n, prim, name);
      var named := PushAll(n, [prim, name]);
      var s3, rest := ParseSequence(named, [Separator, Separator, Separator, Body, Separator], Rank(FunctionDeclaration));
      if s3 != Accept { return s3, n; }
      AppendedTrans(n, named, rest, [Primitive, Identifier], [Separator, Separator, Separator, Body, Separator]);
      return Accept, rest;
    }

    /** Children of the kinds `ks`, parsed in order; the first that fails
        makes the whole sequence fail. This is the `&&` chain the
        productions are written as. The first kind is of a lower rank and
        consumes a token, so the calls after it start further on. */
    method ParseSequence(n: Node, ks: seq<NodeType>, rank: nat) returns (st: Status, r: Node)
      requires Valid()
      requires |ks| > 0 && Rank(ks[0]) < rank && Consumes(ks[0])
      modifies this, flat, scopes.stack
      ensures Valid() && (st != Panic ==> old(cursor) <= cursor) && r.kind == n.kind
      ensures st == Accept ==> Appended(n, r, ks) && r.properties == n.properties && old(cursor) < cursor
      ensures st == Accept && IsTerminal(ks[0]) ==>
                old(cursor) < |tokens| && tokens[old(cursor)].tokenType == TerminalType(ks[0])
      ensures IsTerminal(ks[0]) && old(cursor) < |tokens| && tokens[old(cursor)].tokenType != TerminalType(ks[0]) ==>
                st == Reject && cursor == old(cursor)
      ensures st != Accept ==> r == n
      decreases |tokens| - cursor, rank, 0
    {
      var cs: seq<Node> := [];
      var i := 0;
      while i < |ks|
        invariant 0 <= i <= |ks|
        invariant Valid() && old(cursor) <= cursor
        invariant |cs| == i && forall j :: 0 <= j < i ==> cs[j].kind == ks[j]
        invariant i == 0 ==> cursor == old(cursor)
        invariant i > 0 ==> old(cursor) < cursor
        invariant i > 0 && IsTerminal(ks[0]) ==>
                    old(cursor) < |tokens| && tokens[old(cursor)].tokenType == TerminalType(ks[0])
      {
        var s, child := Parse(CreateNode(ks[i]));
        if s != Accept {
          return s, n;
        }
        cs := cs + [child];
        i := i + 1;
      }
      assert Kinds(cs) == ks;
      return Accept, PushAll(n, cs);
    }

    // -------------------------------------------------------------------------
    // Statements and bodies, shared by both snapshots

    /** `parse_body`: statements up to a "}", which is left unconsumed; the
        first statement that fails makes the body fail, keeping the
        statements already parsed. */
    method ParseBody(n: Node) returns (st: Status, r: Node)
      requires Valid()
      modifies this, flat, scopes.stack
      ensures Valid() && (st != Panic ==> old(cursor) <= cursor) && r.kind == n.kind
      ensures |r.children| >= |n.children| && r.children[..|n.children|] == n.children
      ensures forall i :: |n.children| <= i < |r.children| ==> r.children[i].kind == Statement
      ensures r.properties == n.properties
      ensures st == Accept ==> cursor < |tokens| && tokens[cursor].val == "}"
      ensures old(cursor) < |tokens| && tokens[old(cursor)].val == "}" ==> st == Accept && r == n && cursor == old(cursor)
      decreases |tokens| - cursor, Rank(Body), 1
    {
      r := n;
      while cursor < |tokens| && tokens[cursor].val != "}"
        invariant Valid() && old(cursor) <= cursor && r.kind == n.kind
        invariant |r.children| >= |n.children| && r.children[..|n.children|] == n.children
        invariant forall i :: |n.children| <= i < |r.children| ==> r.children[i].kind == Statement
        invariant r.properties == n.properties
        invariant cursor == old(cursor) ==> r == n
        invariant old(cursor) < |tokens| && tokens[old(cursor)].val == "}" ==> cursor == old(cursor)
        decreases |tokens| - cursor
      {
        var sStmt, stmt := Parse(CreateNode(Statement));
        if sStmt != Accept {
          return sStmt, r;
        }
        r := Push(r, stmt);
      }
      if cursor >= |tokens| {
        return Panic, r;
      }
      return Accept, r;
    }

    /** `keyword arith_expr separator`. */
    method ParseRetStmt(n: Node) returns (st: Status, r: Node)
      requires Valid()
      modifies this
      ensures Valid() && (st != Panic ==> old(cursor) <= cursor) && r.kind == n.kind
      ensures st == Accept ==> Appended(n, r, [Keyword, ArithExpr, Separator]) && KeywordAt(old(cursor)) && old(cursor) < cursor
      ensures st != Accept ==> r == n
      decreases |tokens| - cursor, Rank(ReturnStmt), 1
    {
      var s1, keyword := ParseTerminal(CreateNode(Keyword));
      if s1 != Accept { return s1, n; }
      var s2, expr := ParseKeepingTables(CreateNode(ArithExpr));
      if s2 != Accept { return s2, n; }
      var s3, semicolon := ParseTerminal(CreateNode(Separator));
      if s3 != Accept { return s3, n; }
      AppendedTriple(n, keyword, expr, semicolon);
      return Accept, PushAll(n, [keyword, expr, semicolon]);
    }

    /** `keyword ( condition ) { body } elif`. */
    method ParseIfStmt(n: Node) returns (st: Status, r: Node)
      requires Valid()
      modifies this, flat, scopes.stack
      ensures Valid() && (st != Panic ==> old(cursor) <= cursor) && r.kind == n.kind
      ensures st == Accept ==>
                && Appended(n, r, [Keyword, Separator, ConditionExpr, Separator, Separator, Body, Separator, ElifStmt])
                && KeywordAt(old(cursor)) && old(cursor) < cursor
      ensures st != Accept ==> r == n
      decreases |tokens| - cursor, Rank(IfStmt), 1
    {
      st, r := ParseSequence(n, [Keyword, Separator, ConditionExpr, Separator, Separator, Body, Separator, ElifStmt], Rank(IfStmt));
    }

    /** `elif ( condition ) { body } elif`, or an else statement, or nothing. */
    method ParseElifStmt(n: Node) returns (st: Status, r: Node)
      requires Valid()
      modifies this, flat, scopes.stack
      ensures Valid() && (st != Panic ==> old(cursor) <= cursor) && r.kind == n.kind
      ensures old(cursor) < |tokens| && tokens[old(cursor)].val != "elif" && tokens[old(cursor)].val != "else" ==>
                st == Accept && r == n && cursor == old(cursor)
      ensures old(cursor) < |tokens| && tokens[old(cursor)].val == "elif" && !KeywordAt(old(cursor)) ==>
                st == Reject && r == n && cursor == old(cursor)
      ensures st == Accept && old(cursor) < |tokens| && tokens[old(cursor)].val == "elif" ==>
                Appended(n, r, [Keyword, Separator, ConditionExpr, Separator, Separator, Body, Separator, ElifStmt])
      ensures st == Accept && old(cursor) < |tokens| && tokens[old(cursor)].val == "else" ==>
                Appended(n, r, [ElseStmt])
      ensures st != Accept ==> r == n
      decreases |tokens| - cursor, Rank(ElifStmt), 1
    {
      if cursor >= |tokens| {
        return Panic, n;
      }
      if tokens[cursor].val == "elif" {
        st, r := ParseSequence(n, [Keyword, Separator, ConditionExpr, Separator, Separator, Body, Separator, ElifStmt], Rank(ElifStmt));
        return;
      } else if tokens[cursor].val == "else" {
        var sElse, elseStmt := Parse(CreateNode(ElseStmt));
        if sElse == Accept {
          return Accept, Push(n, elseStmt);
        }
        return sElse, n;
      }
      return Accept, n;
    }

    /** `else { body }`, or nothing. */
    method ParseElseStmt(n: Node) returns (st: Status, r: Node)
      requires Valid()
      modifies this, flat, scopes.stack
      ensures Valid() && (st != Panic ==> old(cursor) <= cursor) && r.kind == n.kind
      ensures old(cursor) < |tokens| && tokens[old(cursor)].val != "else" ==>
                st == Accept && r == n && cursor == old(cursor)
      ensures st == Accept && old(cursor) < |tokens| && tokens[old(cursor)].val == "else" ==>
                Appended(n, r, [Keyword, Separator, Body, Separator])
      ensures st != Accept ==> r == n
      decreases |tokens| - cursor, Rank(ElseStmt), 1
    {
      if cursor >= |tokens| {
        return Panic, n;
      }
      if tokens[cursor].val == "else" {
        st, r := ParseSequence(n, [Keyword, Separator, Body, Separator], Rank(ElseStmt));
        return;
      }
      return Accept, n;
    }

    /** `keyword ( condition ) { body }`. */
    method ParseWhileStmt(n: Node) returns (st: Status, r: Node)
      requires Valid()
      modifies this, flat, scopes.stack
      ensures Valid() && (st != Panic ==> old(cursor) <= cursor) && r.kind == n.kind
      ensures st == Accept ==>
                && Appended(n, r, [Keyword, Separator, ConditionExpr, Separator, Separator, Body, Separator])
                && KeywordAt(old(cursor)) && old(cursor) < cursor
      ensures st != Accept ==> r == n
      decreases |tokens| - cursor, Rank(WhileStmt), 1
    {
      st, r := ParseSequence(n, [Keyword, Separator, ConditionExpr, Separator, Separator, Body, Separator], Rank(WhileStmt));
    }

    /** `keyword ( optional ; optional ; optional ) { body }`. The parse_c.rs
        version pushes the eleven children and then reports failure anyway;
        the statement_c.rs version reports success. */
    method ParseForStmt(n: Node) returns (st: Status, r: Node)
      requires Valid()
      modifies this, flat, scopes.stack
      ensures Valid() && (st != Panic ==> old(cursor) <= cursor) && r.kind == n.kind
      ensures snapshot == Monolithic ==> st != Accept
      ensures st == Accept ==> KeywordAt(old(cursor)) && old(cursor) < cursor
      ensures st == Accept || (snapshot == Monolithic && st == Reject && r != n) ==>
                Appended(n, r, [Keyword, Separator, OptionalExpr, Separator, OptionalExpr, Separator, OptionalExpr,
                                Separator, Separator, Body, Separator])
      decreases |tokens| - cursor, Rank(ForStmt), 1
    {
      st, r := ParseSequence(n, [Keyword, Separator, OptionalExpr, Separator, OptionalExpr, Separator, OptionalExpr,
                                 Separator, Separator, Body, Separator], Rank(ForStmt));
      if st == Accept && snapshot == Monolithic {
        st := Reject;
      }
    }

    // -------------------------------------------------------------------------
    // parse_c.rs: statements and declarations

    /** `parse_statement` of parse_c.rs: a return statement, or a variable
        declaration for a token that is a primitive or starts with a letter. */
    method ParseStatementMonolithic(n: Node) returns (st: Status, r: Node)
      requires Valid()
      modifies this, flat, scopes.stack
      ensures Valid() && (st != Panic ==> old(cursor) <= cursor) && r.kind == n.kind
      ensures st == Accept ==>
                && old(cursor) < cursor && old(cursor) < |tokens|
                && Appended(n, r, [if tokens[old(cursor)].val == "return" then ReturnStmt else VarDecl])
      ensures st != Accept ==> r == n
      ensures KeywordAt(old(cursor)) && tokens[old(cursor)].val != "return" && tokens[old(cursor)].val != "" ==>
                st == Reject && cursor == old(cursor) && r == n
      decreases |tokens| - cursor, Rank(Statement), 1
    {
      if cursor >= |tokens| {
        return Panic, n;
      }
      var current := tokens[cursor].val;
      if current == "return" {
        var sRet, ret := Parse(CreateNode(ReturnStmt));
        if sRet == Accept {
          return Accept, Push(n, ret);
        }
        return sRet, n;
      }
      if !Lexer.IsPrimitive(current) && current == "" {
        return Panic, n;
      }
      if Lexer.IsPrimitive(current) || Lexer.IsIdentifier(current) {
        var sDecl, decl := Parse(CreateNode(VarDecl));
        if sDecl == Accept {
          return Accept, Push(n, decl);
        }
        return sDecl, n;
      }
      if current == "if" {
        // "if" starts with a letter, so the declaration branch was taken.
        assert false;
      }
      return Reject, n;
    }

    /** `parse_var_decl` of parse_c.rs. `primitive identifier` followed by a
        separator or by an operator (whose operand parses are not checked),
        or `identifier operator expression separator` for a declared name. */
    method ParseVarDeclMonolithic(n: Node) returns (st: Status, r: Node)
      requires Valid()
      modifies this, flat
      ensures Valid() && (st != Panic ==> old(cursor) <= cursor) && r.kind == n.kind
      ensures st == Accept ==> old(cursor) < cursor
      ensures old(cursor) < |tokens| && tokens[old(cursor)].tokenType != Lexer.TokenType.Primitive
                && tokens[old(cursor)].tokenType != Lexer.TokenType.Identifier ==>
                st == Reject && cursor == old(cursor) && r == n
      ensures var c := old(cursor);
              n.children == [] && c + 2 < |tokens| && tokens[c].tokenType == Lexer.TokenType.Primitive
                && tokens[c + 1].tokenType == Lexer.TokenType.Identifier && Lexer.IsSeparator(tokens[c + 2].val) ==>
                && st == Accept && Appended(n, r, [Primitive, Identifier, Separator])
                && r.properties == n.properties["value" := "0"]["identifier" := tokens[c + 1].val]
                && flat.table == old(flat.table)[tokens[c + 1].val := FlatSymbols.NewSymbol(tokens[c].val, old(flat.ordinal))]
                && flat.ordinal == old(flat.ordinal) + 1
      ensures var c := old(cursor);
              n.children == [] && c + 2 < |tokens| && tokens[c].tokenType == Lexer.TokenType.Primitive
                && tokens[c + 1].tokenType == Lexer.TokenType.Identifier && !Lexer.IsSeparator(tokens[c + 2].val)
                && Lexer.IsOperator(tokens[c + 2].val) ==>
                st == Panic || (
                  && st == Accept
                  && Appended(n, r, [Primitive, Identifier, Operator, MonolithicRhsKind(tokens[c].val), Separator])
                  && r.properties == n.properties["identifier" := tokens[c + 1].val]
                  && flat.table == old(flat.table)[tokens[c + 1].val := FlatSymbols.NewSymbol(tokens[c].val, old(flat.ordinal))]
                  && flat.ordinal == old(flat.ordinal) + 1)
      ensures var c := old(cursor);
              c < |tokens| && tokens[c].tokenType == Lexer.TokenType.Identifier ==>
                && (tokens[c].val !in old(flat.table) ==> st == Panic)
                && (st == Accept ==>
                      && tokens[c].val in old(flat.table)
                      && Appended(n, r, [Identifier, Operator, MonolithicRhsKind(old(flat.table)[tokens[c].val].primitive), Separator])
                      && (n.children == [] ==> r.properties == n.properties["identifier" := tokens[c].val])
                      && unchanged(flat))
      ensures var c := old(cursor);
              c + 1 < |tokens| && tokens[c].tokenType == Lexer.TokenType.Primitive
                && tokens[c + 1].tokenType != Lexer.TokenType.Identifier ==>
                st == Reject && cursor == c + 1 && r == n
      decreases |tokens| - cursor, Rank(VarDecl), 1
    {
      var sPrim, prim := ParseTerminal(CreateNode(Primitive));
      if sPrim == Panic { return Panic, n; }
      var identity := CreateNode(Identifier);
      if sPrim == Accept {
        var sId, name := ParseTerminal(identity);
        if sId == Panic { return Panic, n; }
        if sId == Accept {
          st, r := ParseDeclTailMonolithic(n, prim, name);
          return;
        }
      }
      st, r := ParseAssignMonolithic(n);
    }

    /** The declaration part of `parse_var_decl` of parse_c.rs after the
        `primitive` and `identifier` children: a separator, which gives the
        value "0", or an operator, an expression chosen by the type and a
        separator. Either way the name is inserted into the table with the
        type; the type and the name are the "value" of the first two
        children of the node. */
    method ParseDeclTailMonolithic(n: Node, prim: Node, name: Node) returns (st: Status, r: Node)
      requires Valid() && prim.kind == Primitive && name.kind == Identifier
      modifies this, flat
      ensures Valid() && (st != Panic ==> old(cursor) <= cursor) && r.kind == n.kind
      ensures var c := old(cursor);
              && n.children == [] && c < |tokens| && Lexer.IsSeparator(tokens[c].val)
              && "value" in prim.properties && "value" in name.properties ==>
                && st == Accept && Appended(n, r, [Primitive, Identifier, Separator])
                && r.properties == n.properties["value" := "0"]["identifier" := name.properties["value"]]
                && flat.table == old(flat.table)[name.properties["value"] :=
                                                 FlatSymbols.NewSymbol(prim.properties["value"], old(flat.ordinal))]
                && flat.ordinal == old(flat.ordinal) + 1
      ensures var c := old(cursor);
              && n.children == [] && c < |tokens| && !Lexer.IsSeparator(tokens[c].val) && Lexer.IsOperator(tokens[c].val)
              && "value" in prim.properties && "value" in name.properties ==>
                st == Panic || (
                  && st == Accept
                  && Appended(n, r, [Primitive, Identifier, Operator, MonolithicRhsKind(prim.properties["value"]), Separator])
                  && r.properties == n.properties["identifier" := name.properties["value"]]
                  && flat.table == old(flat.table)[name.properties["value"] :=
                                                   FlatSymbols.NewSymbol(prim.properties["value"], old(flat.ordinal))]
                  && flat.ordinal == old(flat.ordinal) + 1)
      decreases |tokens| - cursor, Rank(VarDecl), 0
    {
      var cur := PushAll(n, [prim, name]);
      var first := cur.children[0];
      assert n.children == [] ==> first == prim;
      if "value" !in first.properties { return Panic, n; }
      if cursor >= |tokens| { return Panic, n; }
      if Lexer.IsSeparator(tokens[cursor].val) {
        st, r := ParseDeclEndMonolithic(n, prim, name, first.properties["value"]);
        return;
      } else if Lexer.IsOperator(tokens[cursor].val) {
        st, r := ParseDeclInitMonolithic(n, prim, name, first.properties["value"]);
        return;
      }
      return Reject, cur;
    }

    /** The separator branch of the declaration part of `parse_var_decl` of
        parse_c.rs: the separator, the value "0", and the insert of the
        name with the type `typeName` (the first child's "value"). */
    method ParseDeclEndMonolithic(n: Node, prim: Node, name: Node, typeName: string) returns (st: Status, r: Node)
      requires Valid() && cursor < |tokens| && prim.kind == Primitive && name.kind == Identifier
      modifies this, flat
      ensures Valid() && (st != Panic ==> old(cursor) <= cursor) && r.kind == n.kind
      ensures n.children == [] && Lexer.IsSeparator(tokens[old(cursor)].val) && "value" in name.properties ==>
                && st == Accept && Appended(n, r, [Primitive, Identifier, Separator])
                && r.properties == n.properties["value" := "0"]["identifier" := name.properties["value"]]
                && flat.table == old(flat.table)[name.properties["value"] := FlatSymbols.NewSymbol(typeName, old(flat.ordinal))]
                && flat.ordinal == old(flat.ordinal) + 1
      decreases |tokens| - cursor, Rank(VarDecl), 0
    {
      var _, semicolon := ParseTerminal(CreateNode(Separator));
      AppendedTriple(n, prim, name, semicolon);
      var next := WithProperty(PushAll(n, [prim, name, semicolon]), "value", "0");
      var second := next.children[1];
      assert n.children == [] ==> second == name;
      if "value" !in second.properties { return Panic, n; }
      next := WithProperty(next, "identifier", second.properties["value"]);
      assert flat as object != scopes as object;
      flat.Insert(second.properties["value"], typeName);
      return Accept, next;
    }

    /** The operator branch of the declaration part of `parse_var_decl` of
        parse_c.rs: an operator, an expression of the kind chosen by the
        type `typeName` (the first child's "value"), a separator; the parse
        results of the three are not checked. */
    method ParseDeclInitMonolithic(n: Node, prim: Node, name: Node, typeName: string) returns (st: Status, r: Node)
      requires Valid() && cursor < |tokens| && prim.kind == Primitive && name.kind == Identifier
      modifies this, flat
      ensures Valid() && (st != Panic ==> old(cursor) <= cursor) && r.kind == n.kind
      ensures n.children == [] && "value" in name.properties ==>
                st == Panic || (
                  && st == Accept
                  && Appended(n, r, [Primitive, Identifier, Operator, MonolithicRhsKind(typeName), Separator])
                  && r.properties == n.properties["identifier" := name.properties["value"]]
                  && flat.table == old(flat.table)[name.properties["value"] := FlatSymbols.NewSymbol(typeName, old(flat.ordinal))]
                  && flat.ordinal == old(flat.ordinal) + 1)
      decreases |tokens| - cursor, Rank(VarDecl), 0
    {
      var panics, next, id := ParseInitNode(n, prim, name, MonolithicRhsKind(typeName));
      if panics { return Panic, n; }
      assert flat as object != scopes as object;
      flat.Insert(id, typeName);
      return Accept, next;
    }

    /** The node of the operator branch: the five children pushed and the
        second child's "value" recorded as "identifier" and returned. */
    method ParseInitNode(n: Node, prim: Node, name: Node, kind: NodeType) returns (panics: bool, r: Node, id: string)
      requires Valid() && prim.kind == Primitive && name.kind == Identifier
      requires kind == ArithExpr || kind == ConditionExpr || kind == RelationalExpr
      modifies this
      ensures Valid() && (!panics ==> old(cursor) <= cursor)
      ensures !panics ==> Appended(n, r, [Primitive, Identifier, Operator, kind, Separator])
      ensures !panics ==> r.properties == n.properties["identifier" := id]
      ensures n.children == [] && "value" in name.properties && !panics ==> id == name.properties["value"]
      decreases |tokens| - cursor, Rank(VarDecl), 0
    {
      var failed, op, expr, semicolon := ParseInitParts(kind);
      if failed { return true, n, ""; }
      var named := NamedDeclaration(n, prim, name, op, expr, semicolon);
      if named.None? { return true, n, ""; }
      return false, named.value.0, named.value.1;
    }

    /** The operator, the expression of kind `kind` and the separator of the
        operator branch, whose results other than a panic are not checked. */
    method ParseInitParts(kind: NodeType) returns (panics: bool, op: Node, expr: Node, semicolon: Node)
      requires Valid() && (kind == ArithExpr || kind == ConditionExpr || kind == RelationalExpr)
      modifies this
      ensures Valid() && (!panics ==> old(cursor) <= cursor)
      ensures op.kind == Operator && expr.kind == kind && semicolon.kind == Separator
      decreases |tokens| - cursor, Rank(AssignExpr), 0
    {
      var _, operatorNode := ParseTerminal(CreateNode(Operator));
      var sExpr, exprNode := ParseKeepingTables(CreateNode(kind));
      if sExpr == Panic { return true, operatorNode, exprNode, CreateNode(Separator); }
      var sSemi, semicolonNode := ParseTerminal(CreateNode(Separator));
      return sSemi == Panic, operatorNode, exprNode, semicolonNode;
    }

    /** The reassignment part of `parse_var_decl` of parse_c.rs:
        `identifier operator expression separator`, the expression chosen by
        the declared type of the name, which must be in the table. */
    method ParseAssignMonolithic(n: Node) returns (st: Status, r: Node)
      requires Valid()
      modifies this
      ensures Valid() && (st != Panic ==> old(cursor) <= cursor) && r.kind == n.kind
      ensures st == Accept ==> old(cursor) < cursor
      ensures st != Accept ==> r == n
      ensures old(cursor) < |tokens| && tokens[old(cursor)].tokenType != Lexer.TokenType.Identifier ==>
                st == Reject && cursor == old(cursor)
      ensures var c := old(cursor);
              c < |tokens| && tokens[c].tokenType == Lexer.TokenType.Identifier ==>
                && (tokens[c].val !in flat.table ==> st == Panic)
                && (st == Accept ==>
                      && tokens[c].val in flat.table
                      && Appended(n, r, [Identifier, Operator, MonolithicRhsKind(flat.table[tokens[c].val].primitive), Separator])
                      && (n.children == [] ==> r.properties == n.properties["identifier" := tokens[c].val]))
      decreases |tokens| - cursor, Rank(VarDecl), 0
    {
      var sName, name := ParseTerminal(CreateNode(Identifier));
      if sName != Accept { return sName, n; }
      var declared := flat.Query(name.properties["value"]);
      if declared.None? { return Panic, n; }
      var exprKind := MonolithicRhsKind(declared.value.primitive);
      var sOp, op := ParseTerminal(CreateNode(Operator));
      if sOp != Accept { return sOp, n; }
      var sExpr, expr := ParseKeepingTables(CreateNode(exprKind));
      if sExpr != Accept { return sExpr, n; }
      var sSemi, semicolon := ParseTerminal(CreateNode(Separator));
      if sSemi != Accept { return sSemi, n; }
      // The name is recorded before the separator is pushed; the two commute.
      var named := NamedAssignment(n, name, op, expr, semicolon);
      if named.None? { return Panic, n; }
      return Accept, named.value;
    }

    // -------------------------------------------------------------------------
    // statement_c.rs: statements and declarations

    /** `parse_statement` of statement_c.rs: return, a declaration for a
        primitive, an assignment for a token starting with a letter. The
        if/for/while branches after these can never be reached. */
    method ParseStatementSplit(n: Node) returns (st: Status, r: Node)
      requires Valid()
      modifies this, flat, scopes.stack
      ensures Valid() && (st != Panic ==> old(cursor) <= cursor) && r.kind == n.kind
      ensures st == Accept ==>
                && old(cursor) < cursor && old(cursor) < |tokens|
                && Appended(n, r, if tokens[old(cursor)].val == "return" then [ReturnStmt]
                                  else if Lexer.IsPrimitive(tokens[old(cursor)].val) then [VarDecl]
                                  else [AssignExpr, Separator])
      ensures st != Accept ==> r == n
      ensures KeywordAt(old(cursor)) && tokens[old(cursor)].val != "return" && tokens[old(cursor)].val != "" ==>
                st == Reject && cursor == old(cursor) && r == n
      decreases |tokens| - cursor, Rank(Statement), 1
    {
      if cursor >= |tokens| {
        return Panic, n;
      }
      var current := tokens[cursor].val;
      if current == "return" {
        var sRet, ret := Parse(CreateNode(ReturnStmt));
        if sRet == Accept {
          return Accept, Push(n, ret);
        }
        return sRet, n;
      } else if Lexer.IsPrimitive(current) {
        var sDecl, decl := Parse(CreateNode(VarDecl));
        if sDecl != Accept { return sDecl, n; }
        var sSemi, semicolon := ParseTerminal(CreateNode(Separator));
        if sSemi != Accept { return sSemi, n; }
        return Accept, Push(n, decl);
      }
      if current == "" {
        return Panic, n;
      }
      if Lexer.IsIdentifier(current) {
        var sAssign, assign := Parse(CreateNode(AssignExpr));
        if sAssign != Accept { return sAssign, n; }
        var sSemi, semicolon := ParseTerminal(CreateNode(Separator));
        if sSemi != Accept { return sSemi, n; }
        AppendedPair(n, assign, semicolon);
        return Accept, PushAll(n, [assign, semicolon]);
      } else if current == "if" || current == "for" || current == "while" {
        // These words start with a letter, so the assignment branch was taken.
        assert false;
      }
      return Reject, n;
    }

    /** `parse_var_decl` of statement_c.rs: a primitive, then (when the next
        token starts with a letter) the binding of that name in the top
        frame, made before the rest is parsed and never undone; then an
        assignment, or else a bare identifier. */
    method ParseVarDeclSplit(n: Node) returns (st: Status, r: Node)
      requires Valid()
      modifies this, scopes.stack
      ensures Valid() && (st != Panic ==> old(cursor) <= cursor) && r.kind == n.kind
      ensures st == Accept ==> old(cursor) < cursor
      ensures old(cursor) < |tokens| && tokens[old(cursor)].tokenType != Lexer.TokenType.Primitive ==>
                st == Reject && cursor == old(cursor) && r == n && unchanged(scopes.stack)
      ensures var c := old(cursor);
              n.children == [] && c + 1 < |tokens| && tokens[c].tokenType == Lexer.TokenType.Primitive
                && tokens[c + 1].val != "" && Lexer.IsAlpha(tokens[c + 1].val[0]) && |scopes.stack| > 0 ==>
                scopes.Tables() == BindTop(old(scopes.Tables()), tokens[c + 1].val, tokens[c].val)
      ensures var c := old(cursor);
              n.children == [] && c + 1 < |tokens| && tokens[c].tokenType == Lexer.TokenType.Primitive
                && !(tokens[c + 1].val != "" && Lexer.IsAlpha(tokens[c + 1].val[0])) ==>
                unchanged(scopes.stack)
      ensures n.children == [] && st == Accept ==>
                || (&& Appended(n, r, [Primitive, AssignExpr])
                    && "identifier" in r.children[1].properties
                    && r.properties == n.properties["identifier" := r.children[1].properties["identifier"]])
                || (&& Appended(n, r, [Primitive, Identifier])
                    && "value" in r.children[1].properties
                    && r.properties == n.properties["value" := "0"]["identifier" := r.children[1].properties["value"]])
      decreases |tokens| - cursor, Rank(VarDecl), 1
    {
      var sPrim, prim := ParseTerminal(CreateNode(Primitive));
      if sPrim != Accept { return sPrim, n; }
      if cursor >= |tokens| { return Panic, n; }
      if tokens[cursor].val == "" { return Panic, n; }
      var panics := BindDeclName(n, prim);
      if panics { return Panic, n; }
      st, r := ParseDeclRestSplit(n, prim);
    }

    /** The binding step of `parse_var_decl` of statement_c.rs, with the
        cursor on the name: a name starting with a letter is bound in the
        top frame to the type read from the node's first child, which is
        `prim` once pushed onto a childless node. */
    method BindDeclName(n: Node, prim: Node) returns (panics: bool)
      requires Valid() && cursor < |tokens| && tokens[cursor].val != ""
      modifies scopes.stack
      ensures Valid()
      ensures !Lexer.IsAlpha(tokens[cursor].val[0]) ==> !panics && unchanged(scopes.stack)
      ensures n.children == [] && Lexer.IsAlpha(tokens[cursor].val[0]) && "value" in prim.properties && |scopes.stack| > 0 ==>
                && !panics
                && scopes.Tables() == BindTop(old(scopes.Tables()), tokens[cursor].val, prim.properties["value"])
    {
      if Lexer.IsIdentifier(tokens[cursor].val) {
        var first := Push(n, prim).children[0];
        assert n.children == [] ==> first == prim;
        if "value" !in first.properties { return true; }
        if |scopes.stack| == 0 { return true; }
        scopes.ScopeBind(tokens[cursor].val, first.properties["value"], false);
      }
      return false;
    }

    /** The rest of `parse_var_decl` of statement_c.rs after the primitive
        child `prim`: an assignment, whose "identifier" becomes the
        declaration's, or else a bare identifier, which gives the value "0". */
    method ParseDeclRestSplit(n: Node, prim: Node) returns (st: Status, r: Node)
      requires Valid() && prim.kind == Primitive
      modifies this
      ensures Valid() && (st != Panic ==> old(cursor) <= cursor) && r.kind == n.kind
      ensures n.children == [] && st == Accept ==>
                || (&& Appended(n, r, [Primitive, AssignExpr])
                    && "identifier" in r.children[1].properties
                    && r.properties == n.properties["identifier" := r.children[1].properties["identifier"]])
                || (&& Appended(n, r, [Primitive, Identifier])
                    && "value" in r.children[1].properties
                    && r.properties == n.properties["value" := "0"]["identifier" := r.children[1].properties["value"]])
      decreases |tokens| - cursor, Rank(VarDecl), 0
    {
      var sAssign, assign := ParseKeepingTables(CreateNode(AssignExpr));
      if sAssign == Panic { return Panic, n; }
      if sAssign == Accept {
        AppendedPair(n, prim, assign);
        var next := PushAll(n, [prim, assign]);
        var second := next.children[1];
        assert n.children == [] ==> second == assign;
        if "identifier" !in second.properties { return Panic, n; }
        return Accept, WithProperty(next, "identifier", second.properties["identifier"]);
      }
      var sName, name := ParseTerminal(CreateNode(Identifier));
      if sName == Accept {
        AppendedPair(n, prim, name);
        var next := WithProperty(PushAll(n, [prim, name]), "value", "0");
        var second := next.children[1];
        assert n.children == [] ==> second == name;
        if "value" !in second.properties { return Panic, n; }
        return Accept, WithProperty(next, "identifier", second.properties["value"]);
      }
      return sName, Push(n, prim);
    }

    // -------------------------------------------------------------------------
    // expression_c.rs: assignments, expressions and optional expressions

    /** `identifier = expression`, the expression's kind chosen by the
        declared type of the name, which must be declared. A failure after
        the name moves the cursor back by one. */
    method ParseAssignExpr(n: Node) returns (st: Status, r: Node)
      requires Valid()
      modifies this
      ensures Valid() && (st != Panic ==> old(cursor) <= cursor) && r.kind == n.kind
      ensures st != Accept ==> r == n
      ensures old(cursor) < |tokens| && tokens[old(cursor)].tokenType != Lexer.TokenType.Identifier ==>
                st == Reject && cursor == old(cursor)
      ensures var c := old(cursor);
              c < |tokens| && tokens[c].tokenType == Lexer.TokenType.Identifier
                && (|scopes.stack| == 0 || SymbolTables.Resolve(scopes.Tables(), tokens[c].val).None?) ==>
                st == Panic
      ensures var c := old(cursor);
              st == Accept ==>
                && c + 1 < |tokens| && c < cursor && tokens[c].tokenType == Lexer.TokenType.Identifier
                && tokens[c + 1].val == "=" && |scopes.stack| > 0
                && SymbolTables.Resolve(scopes.Tables(), tokens[c].val).Some?
                && Appended(n, r, [Identifier, Operator, SplitRhsKind(SymbolTables.Resolve(scopes.Tables(), tokens[c].val).value.primitive)])
                && r.children[|n.children|].properties == map["value" := tokens[c].val]
                && (n.children == [] ==> r.properties == n.properties["identifier" := tokens[c].val])
      ensures var c := old(cursor);
              st == Reject && c + 1 < |tokens| && tokens[c].tokenType == Lexer.TokenType.Identifier && tokens[c + 1].val != "=" ==>
                cursor == c
      ensures var c := old(cursor);
              DeclaredAt(c, old(scopes.Tables())) && c + 1 < |tokens| && tokens[c + 1].val != "=" ==> st == Reject && cursor == c
      ensures n.children == [] && SimpleAssignAt(old(cursor), old(scopes.Tables())) ==> st == Accept && cursor == old(cursor) + 3
      ensures var c := old(cursor);
              && DeclaredAt(c, old(scopes.Tables())) && c + 1 < |tokens|
              && tokens[c + 1].val == "=" && tokens[c + 1].tokenType == Lexer.TokenType.Operator && SeparatorAt(c + 2) ==>
                st == Reject && cursor == c + 1
      decreases |tokens| - cursor, Rank(AssignExpr), 1
    {
      var sName, name := ParseTerminal(CreateNode(Identifier));
      if sName != Accept { return sName, n; }
      if |scopes.stack| == 0 { return Panic, n; }
      var declared := scopes.ScopeLookup(name.properties["value"]);
      if declared.None? { return Panic, n; }
      st, r := ParseAssignRest(n, name, SplitRhsKind(declared.value.primitive));
    }

    /** The part of `parse_assign_expr` after the name `name`: "=" and an
        expression of kind `exprKind`. A failure moves the cursor back one
        token from where the attempt stopped: onto the name when the "=" is
        missing, onto the "=" when the expression rejects at once. */
    method ParseAssignRest(n: Node, name: Node, exprKind: NodeType) returns (st: Status, r: Node)
      requires Valid() && cursor > 0 && name.kind == Identifier && "value" in name.properties
      requires exprKind == ArithExpr || exprKind == ConditionExpr
      modifies this
      ensures Valid() && (st != Panic ==> old(cursor) - 1 <= cursor) && r.kind == n.kind
      ensures st != Accept ==> r == n
      ensures st == Accept ==>
                && old(cursor) < |tokens| && tokens[old(cursor)].val == "=" && old(cursor) < cursor
                && Appended(n, r, [Identifier, Operator, exprKind])
                && r.children[|n.children|] == name
                && (n.children == [] ==> r.properties == n.properties["identifier" := name.properties["value"]])
      ensures old(cursor) < |tokens| && tokens[old(cursor)].val != "=" ==> st == Reject && cursor == old(cursor) - 1
      ensures var c := old(cursor);
              n.children == [] && exprKind == ArithExpr && c < |tokens| && tokens[c].val == "=" && tokens[c].tokenType == Lexer.TokenType.Operator
                && LoneArithAt(c + 1) ==>
                st == Accept && cursor == c + 2
      ensures var c := old(cursor);
              c < |tokens| && tokens[c].val == "=" && tokens[c].tokenType == Lexer.TokenType.Operator && SeparatorAt(c + 1) ==>
                st == Reject && cursor == c
      decreases |tokens| - cursor, Rank(AssignExpr), 1
    {
      if cursor >= |tokens| { return Panic, n; }
      if tokens[cursor].val == "=" {
        st, r := ParseAssignChain(n, name, exprKind);
        if st != Reject { return; }
      }
      var _ := PrevTokenIndex();
      return Reject, n;
    }

    /** The `= expression` attempt of `parse_assign_expr`, with the cursor
        on the "="; a failure leaves the cursor where the attempt stopped. */
    method ParseAssignChain(n: Node, name: Node, exprKind: NodeType) returns (st: Status, r: Node)
      requires Valid() && cursor > 0 && name.kind == Identifier && "value" in name.properties
      requires cursor < |tokens| && tokens[cursor].val == "="
      requires exprKind == ArithExpr || exprKind == ConditionExpr
      modifies this
      ensures Valid() && (st != Panic ==> old(cursor) <= cursor) && r.kind == n.kind
      ensures st != Accept ==> r == n
      ensures st == Accept ==>
                && old(cursor) < cursor
                && Appended(n, r, [Identifier, Operator, exprKind])
                && r.children[|n.children|] == name
                && (n.children == [] ==> r.properties == n.properties["identifier" := name.properties["value"]])
      ensures var c := old(cursor);
              n.children == [] && exprKind == ArithExpr && tokens[c].tokenType == Lexer.TokenType.Operator && LoneArithAt(c + 1) ==>
                st == Accept && cursor == c + 2
      ensures tokens[old(cursor)].tokenType == Lexer.TokenType.Operator && SeparatorAt(old(cursor) + 1) ==>
                st == Reject && cursor == old(cursor) + 1
      decreases |tokens| - cursor, Rank(AssignExpr), 0
    {
      var sOp, op := ParseTerminal(CreateNode(Operator));
      if sOp != Accept { return sOp, n; }
      var sExpr, expr := ParseKeepingTables(CreateNode(exprKind));
      if sExpr != Accept { return sExpr, n; }
      AppendedTriple(n, name, op, expr);
      var cur := PushAll(n, [name, op, expr]);
      var first := cur.children[0];
      assert n.children == [] ==> first == name;
      if "value" !in first.properties { return Panic, n; }
      return Accept, WithProperty(cur, "identifier", first.properties["value"]);
    }

    /** `parse_expr`: a condition, else an arithmetic expression. */
    method ParseExpr(n: Node) returns (st: Status, r: Node)
      requires Valid()
      modifies this
      ensures Valid() && (st != Panic ==> old(cursor) <= cursor) && r.kind == n.kind
      ensures st == Accept ==> old(cursor) < cursor && (Appended(n, r, [ConditionExpr]) || Appended(n, r, [ArithExpr]))
      ensures st != Accept ==> r == n
      ensures LoneBoolAt(old(cursor), old(scopes.Tables())) ==> st == Accept && Appended(n, r, [ConditionExpr]) && cursor == old(cursor) + 1
      ensures SeparatorAt(old(cursor)) ==> st == Reject && cursor == old(cursor)
      decreases |tokens| - cursor, Rank(Expression), 1
    {
      var sCond, cond := ParseKeepingTables(CreateNode(ConditionExpr));
      if sCond == Panic { return Panic, n; }
      if sCond == Accept { return Accept, Push(n, cond); }
      var sArith, arith := ParseKeepingTables(CreateNode(ArithExpr));
      if sArith == Accept { return Accept, Push(n, arith); }
      return sArith, n;
    }

    /** `parse_optional_expr` of expression_c.rs: a declaration, an
        assignment, an expression, or nothing before a separator. */
    method ParseOptionalExprSplit(n: Node) returns (st: Status, r: Node)
      requires Valid()
      modifies this, flat, scopes.stack
      ensures Valid() && (st != Panic ==> old(cursor) <= cursor) && r.kind == n.kind
      ensures st == Accept ==>
                || Appended(n, r, [VarDecl]) || Appended(n, r, [AssignExpr]) || Appended(n, r, [Expression])
                || (r == n && cursor < |tokens| && Lexer.IsSeparator(tokens[cursor].val))
      ensures st != Accept ==> r == n
      ensures SeparatorAt(old(cursor)) ==> st == Accept && r == n && cursor == old(cursor)
      ensures snapshot == Split && SimpleAssignAt(old(cursor), old(scopes.Tables())) ==>
                st == Accept && Appended(n, r, [AssignExpr]) && cursor == old(cursor) + 3
      ensures var c := old(cursor);
              snapshot == Split && LoneBoolAt(old(cursor), old(scopes.Tables())) && tokens[c + 1].val != "=" ==>
                st == Accept && Appended(n, r, [Expression]) && cursor == c + 1
      decreases |tokens| - cursor, Rank(OptionalExpr), 1
    {
      var sDecl, decl := Parse(CreateNode(VarDecl));
      if sDecl == Panic { return Panic, n; }
      if sDecl == Accept { return Accept, Push(n, decl); }
      st, r := ParseOptionalAfterDecl(n);
    }

    /** The rest of `parse_optional_expr` of expression_c.rs once the
        declaration has failed: an assignment, an expression, or nothing
        before a separator. These leave the tables as they are, so `parse`
        sends them to its table-keeping part. */
    method ParseOptionalAfterDecl(n: Node) returns (st: Status, r: Node)
      requires Valid()
      modifies this
      ensures Valid() && (st != Panic ==> old(cursor) <= cursor) && r.kind == n.kind
      ensures st == Accept ==>
                || Appended(n, r, [AssignExpr]) || Appended(n, r, [Expression])
                || (r == n && cursor < |tokens| && Lexer.IsSeparator(tokens[cursor].val))
      ensures st != Accept ==> r == n
      ensures SeparatorAt(old(cursor)) ==> st == Accept && r == n && cursor == old(cursor)
      ensures snapshot == Split && SimpleAssignAt(old(cursor), old(scopes.Tables())) ==>
                st == Accept && Appended(n, r, [AssignExpr]) && cursor == old(cursor) + 3
      ensures var c := old(cursor);
              snapshot == Split && LoneBoolAt(c, old(scopes.Tables())) && tokens[c + 1].val != "=" ==>
                st == Accept && Appended(n, r, [Expression]) && cursor == c + 1
      decreases |tokens| - cursor, Rank(OptionalExpr), 0
    {
      var sAssign, assign := ParseKeepingTables(CreateNode(AssignExpr));
      if sAssign == Panic { return Panic, n; }
      if sAssign == Accept { return Accept, Push(n, assign); }
      var sExpr, expr := ParseKeepingTables(CreateNode(Expression));
      if sExpr == Panic { return Panic, n; }
      if sExpr == Accept { return Accept, Push(n, expr); }
      if cursor >= |tokens| { return Panic, n; }
      if Lexer.IsSeparator(tokens[cursor].val) { return Accept, n; }
      return Reject, n;
    }

    /** `parse_optional_expr` of parse_c.rs: an arithmetic expression, a
        condition, or nothing before a separator. */
    method ParseOptionalExprMonolithic(n: Node) returns (st: Status, r: Node)
      requires Valid()
      modifies this, flat, scopes.stack
      ensures Valid() && (st != Panic ==> old(cursor) <= cursor) && r.kind == n.kind
      ensures st == Accept ==>
                || Appended(n, r, [ArithExpr]) || Appended(n, r, [ConditionExpr])
                || (r == n && cursor < |tokens| && Lexer.IsSeparator(tokens[cursor].val))
      ensures st != Accept ==> r == n
      ensures SeparatorAt(old(cursor)) ==> st == Accept && r == n && cursor == old(cursor)
      ensures LoneArithAt(old(cursor)) ==> st == Accept && Appended(n, r, [ArithExpr]) && cursor == old(cursor) + 1
      decreases |tokens| - cursor, Rank(OptionalExpr), 1
    {
      var sArith, arith := Parse(CreateNode(ArithExpr));
      if sArith == Panic { return Panic, n; }
      if sArith == Accept { return Accept, Push(n, arith); }
      var sCond, cond := Parse(CreateNode(ConditionExpr));
      if sCond == Panic { return Panic, n; }
      if sCond == Accept { return Accept, Push(n, cond); }
      if cursor >= |tokens| { return Panic, n; }
      if Lexer.IsSeparator(tokens[cursor].val) { return Accept, n; }
      return Reject, n;
    }

    // -------------------------------------------------------------------------
    // Conditions, shared by both snapshots

    /** `parse_cond_expr`: a boolean expression, else a relational one. */
    method ParseCondExpr(n: Node) returns (st: Status, r: Node)
      requires Valid()
      modifies this
      ensures Valid() && (st != Panic ==> old(cursor) <= cursor) && r.kind == n.kind
      ensures st == Accept ==> old(cursor) < cursor && (Appended(n, r, [BoolExpr]) || Appended(n, r, [RelationalExpr]))
      ensures st != Accept ==> r == n
      ensures LoneBoolAt(old(cursor), old(scopes.Tables())) ==> st == Accept && Appended(n, r, [BoolExpr]) && cursor == old(cursor) + 1
      ensures SeparatorAt(old(cursor)) ==> st == Reject && cursor == old(cursor)
      decreases |tokens| - cursor, Rank(ConditionExpr), 1
    {
      var sBool, boolExpr := ParseKeepingTables(CreateNode(BoolExpr));
      if sBool == Panic { return Panic, n; }
      if sBool == Accept { return Accept, Push(n, boolExpr); }
      var sRel, relExpr := ParseKeepingTables(CreateNode(RelationalExpr));
      if sRel == Accept { return Accept, Push(n, relExpr); }
      return sRel, n;
    }

    /** `arith_expr operator arith_expr`, recording the operator's text;
        any operator token is taken. */
    method ParseRelationalExpr(n: Node) returns (st: Status, r: Node)
      requires Valid()
      modifies this
      ensures Valid() && (st != Panic ==> old(cursor) <= cursor) && r.kind == n.kind
      ensures st == Accept ==>
                && old(cursor) < cursor
                && Appended(n, r, [ArithExpr, Operator, ArithExpr])
                && "value" in r.children[1].properties
                && r.properties == n.properties["operator" := r.children[1].properties["value"]]
      ensures st != Accept ==> r == n
      ensures NoOperandAt(old(cursor)) ==> st == Reject && cursor == old(cursor)
      decreases |tokens| - cursor, Rank(RelationalExpr), 1
    {
      var s1, left := ParseKeepingTables(CreateNode(ArithExpr));
      if s1 != Accept { return s1, n; }
      var s2, op := ParseTerminal(CreateNode(Operator));
      if s2 != Accept { return s2, n; }
      var s3, right := ParseKeepingTables(CreateNode(ArithExpr));
      if s3 != Accept { return s3, n; }
      AppendedTriple(n, left, op, right);
      var cur := PushAll(n, [left, op, right]);
      var second := cur.children[1];
      if "value" !in second.properties { return Panic, n; }
      return Accept, WithProperty(cur, "operator", second.properties["value"]);
    }

    // -------------------------------------------------------------------------
    // Arithmetic expressions, shared by both snapshots

    /** `term subexpr`, passing up the term's "terminal" and the tail's
        "operator" when they have one. */
    method ParseArithExpr(n: Node) returns (st: Status, r: Node)
      requires Valid()
      modifies this
      ensures Valid() && (st != Panic ==> old(cursor) <= cursor) && r.kind == n.kind
      ensures NoOperandAt(old(cursor)) ==> st == Reject && cursor == old(cursor) && r == n
      ensures st == Accept ==>
                && old(cursor) < cursor
                && Appended(n, r, [ArithTerm, ArithSubexpr])
                && r.properties == CopyKey(CopyKey(n.properties, r.children[0], "terminal"), r.children[1], "operator")
      ensures st != Accept ==> r == n
      ensures n.children == [] && LoneArithAt(old(cursor)) ==> st == Accept && cursor == old(cursor) + 1
      decreases |tokens| - cursor, Rank(ArithExpr), 1
    {
      var s1, term := ParseKeepingTables(CreateNode(ArithTerm));
      if s1 != Accept { return s1, n; }
      var s2, subexpr := ParseKeepingTables(CreateNode(ArithSubexpr));
      if s2 != Accept { return s2, n; }
      // Both pushes happen before the node is read; the indices read are the same.
      AppendedPair(n, term, subexpr);
      var cur := PushAll(n, [term, subexpr]);
      return Accept, cur.(properties := CopyKey(CopyKey(n.properties, cur.children[0], "terminal"), cur.children[1], "operator"));
    }

    /** `+ term subexpr`, `- term subexpr`, a lone term, or nothing before
        an operator or separator; the term node of a failed first attempt
        is reused as it was left. Only `+` and `-` are chained here, over
        whole terms. */
    method ParseArithSubexpr(n: Node) returns (st: Status, r: Node)
      requires Valid()
      modifies this
      ensures Valid() && (st != Panic ==> old(cursor) <= cursor) && r.kind == n.kind
      ensures st == Accept ==>
                || (&& Appended(n, r, [Operator, ArithTerm, ArithSubexpr])
                    && old(cursor) < |tokens| && tokens[old(cursor)].val in {"+", "-"}
                    && r.properties == n.properties["operator" := tokens[old(cursor)].val])
                || (&& Appended(n, r, [ArithTerm]) && "terminal" in r.children[0].properties
                    && r.properties == n.properties["terminal" := r.children[0].properties["terminal"]])
                || (r == n && OperatorOrSeparatorAt(cursor))
      ensures NoOperandAt(old(cursor)) && OperatorOrSeparatorAt(old(cursor)) && tokens[old(cursor)].val !in {"+", "-"} ==>
                st == Accept && r == n && cursor == old(cursor)
      ensures st != Accept ==> r == n
      decreases |tokens| - cursor, Rank(ArithSubexpr), 1
    {
      if cursor >= |tokens| { return Panic, n; }
      var termNode := CreateNode(ArithTerm);
      if tokens[cursor].val == "+" || tokens[cursor].val == "-" {
        var sChain, chain;
        sChain, chain, termNode := ParseSubexprChain(n);
        if sChain == Panic { return Panic, n; }
        if sChain == Accept { return Accept, chain; }
      }
      var sTerm;
      sTerm, termNode := ParseKeepingTables(termNode);
      if sTerm == Panic { return Panic, n; }
      if sTerm == Accept {
        var cur := Push(n, termNode);
        var first := cur.children[0];
        if "terminal" !in first.properties { return Panic, n; }
        return Accept, WithProperty(cur, "terminal", first.properties["terminal"]);
      }
      if cursor >= |tokens| { return Panic, n; }
      if Lexer.IsOperator(tokens[cursor].val) { return Accept, n; }
      if Lexer.IsSeparator(tokens[cursor].val) { return Accept, n; }
      return Reject, n;
    }

    /** The `+ term subexpr` or `- term subexpr` attempt of `parse_arith_subexpr`,
        also giving back the term node as the attempt left it. */
    method ParseSubexprChain(n: Node) returns (st: Status, r: Node, termNode: Node)
      requires Valid() && cursor < |tokens|
      modifies this
      ensures Valid() && (st != Panic ==> old(cursor) <= cursor) && termNode.kind == ArithTerm
      ensures st == Accept ==>
                && Appended(n, r, [Operator, ArithTerm, ArithSubexpr])
                && r.properties == n.properties["operator" := tokens[old(cursor)].val]
      decreases |tokens| - cursor, Rank(ArithSubexpr), 0
    {
      termNode := CreateNode(ArithTerm);
      var sOp, operatorNode := ParseTerminal(CreateNode(Operator));
      if sOp != Accept { return sOp, n, termNode; }
      var sTerm;
      sTerm, termNode := ParseKeepingTables(termNode);
      if sTerm != Accept { return sTerm, n, termNode; }
      var sTail, tailNode := ParseKeepingTables(CreateNode(ArithSubexpr));
      if sTail != Accept { return sTail, n, termNode; }
      var cur := WithProperty(n, "operator", operatorNode.properties["value"]);
      AppendedTriple(cur, operatorNode, termNode, tailNode);
      return Accept, PushAll(cur, [operatorNode, termNode, tailNode]), termNode;
    }

    /** `factor subterm`: "terminal" from the factor (which must have it),
        "operator" from the tail when it has one. */
    method ParseArithTerm(n: Node) returns (st: Status, r: Node)
      requires Valid()
      modifies this
      ensures Valid() && (st != Panic ==> old(cursor) <= cursor) && r.kind == n.kind
      ensures NoOperandAt(old(cursor)) ==> st == Reject && cursor == old(cursor) && r == n
      ensures st == Accept ==>
                && old(cursor) < cursor
                && Appended(n, r, [ArithFactor, ArithSubterm])
                && "terminal" in r.children[0].properties
                && r.properties == CopyKey(n.properties["terminal" := r.children[0].properties["terminal"]], r.children[1], "operator")
      ensures st != Accept ==> r == n
      ensures n.children == [] && LoneArithAt(old(cursor)) ==> st == Accept && cursor == old(cursor) + 1
      decreases |tokens| - cursor, Rank(ArithTerm), 1
    {
      var s1, factor := ParseKeepingTables(CreateNode(ArithFactor));
      if s1 != Accept { return s1, n; }
      var s2, subterm := ParseKeepingTables(CreateNode(ArithSubterm));
      if s2 != Accept { return s2, n; }
      // Both pushes happen before the node is read; the indices read are the same.
      AppendedPair(n, factor, subterm);
      var cur := PushAll(n, [factor, subterm]);
      var first := cur.children[0];
      if "terminal" !in first.properties { return Panic, n; }
      return Accept, cur.(properties := CopyKey(n.properties["terminal" := first.properties["terminal"]], cur.children[1], "operator"));
    }

    /** `* factor subterm`, `/ factor subterm`, a lone factor, or nothing
        before an operator or separator. Only `*` and `/` are chained here,
        over factors, so they bind tighter than `+` and `-`. */
    method ParseArithSubterm(n: Node) returns (st: Status, r: Node)
      requires Valid()
      modifies this
      ensures Valid() && (st != Panic ==> old(cursor) <= cursor) && r.kind == n.kind
      ensures st == Accept ==>
                || (&& Appended(n, r, [Operator, ArithFactor, ArithSubterm])
                    && old(cursor) < |tokens| && tokens[old(cursor)].val in {"*", "/"}
                    && r.properties == n.properties["operator" := tokens[old(cursor)].val])
                || (&& Appended(n, r, [ArithFactor]) && "terminal" in r.children[0].properties
                    && r.properties == n.properties["terminal" := r.children[0].properties["terminal"]])
                || (r == n && OperatorOrSeparatorAt(cursor))
      ensures NoOperandAt(old(cursor)) && OperatorOrSeparatorAt(old(cursor)) && tokens[old(cursor)].val !in {"*", "/"} ==>
                st == Accept && r == n && cursor == old(cursor)
      ensures st != Accept ==> r == n
      decreases |tokens| - cursor, Rank(ArithSubterm), 1
    {
      if cursor >= |tokens| { return Panic, n; }
      var factorNode := CreateNode(ArithFactor);
      if tokens[cursor].val == "*" || tokens[cursor].val == "/" {
        var sChain, chain;
        sChain, chain, factorNode := ParseSubtermChain(n);
        if sChain == Panic { return Panic, n; }
        if sChain == Accept { return Accept, chain; }
      }
      var sFactor;
      sFactor, factorNode := ParseKeepingTables(factorNode);
      if sFactor == Panic { return Panic, n; }
      if sFactor == Accept {
        var cur := Push(n, factorNode);
        var first := cur.children[0];
        if "terminal" !in first.properties { return Panic, n; }
        return Accept, WithProperty(cur, "terminal", first.properties["terminal"]);
      }
      if cursor >= |tokens| { return Panic, n; }
      if Lexer.IsOperator(tokens[cursor].val) { return Accept, n; }
      if Lexer.IsSeparator(tokens[cursor].val) { return Accept, n; }
      return Reject, n;
    }

    /** The `* factor subterm` or `/ factor subterm` attempt of
        `parse_arith_subterm`, also giving back the factor node as the
        attempt left it. */
    method ParseSubtermChain(n: Node) returns (st: Status, r: Node, factorNode: Node)
      requires Valid() && cursor < |tokens|
      modifies this
      ensures Valid() && (st != Panic ==> old(cursor) <= cursor) && factorNode.kind == ArithFactor
      ensures st == Accept ==>
                && Appended(n, r, [Operator, ArithFactor, ArithSubterm])
                && r.properties == n.properties["operator" := tokens[old(cursor)].val]
      decreases |tokens| - cursor, Rank(ArithSubterm), 0
    {
      factorNode := CreateNode(ArithFactor);
      var sOp, operatorNode := ParseTerminal(CreateNode(Operator));
      if sOp != Accept { return sOp, n, factorNode; }
      var sFactor;
      sFactor, factorNode := ParseKeepingTables(factorNode);
      if sFactor != Accept { return sFactor, n, factorNode; }
      var sTail, tailNode := ParseKeepingTables(CreateNode(ArithSubterm));
      if sTail != Accept { return sTail, n, factorNode; }
      var cur := WithProperty(n, "operator", operatorNode.properties["value"]);
      AppendedTriple(cur, operatorNode, factorNode, tailNode);
      return Accept, PushAll(cur, [operatorNode, factorNode, tailNode]), factorNode;
    }

    /** The token at `c` is an identifier. */
    ghost predicate FactorIdent(c: nat) {
      c < |tokens| && tokens[c].tokenType == Lexer.TokenType.Identifier
    }

    /** The constant attempt, made after the identifier attempt, succeeds. */
    ghost predicate FactorConst(c: nat) {
      var d := if FactorIdent(c) then c + 1 else c;
      d < |tokens| && tokens[d].tokenType == Lexer.TokenType.Constant
    }

    /** `parse_arith_factor`: tries an identifier and then a constant, and
        succeeds iff exactly one of the two attempts does. */
    method ParseArithFactor(n: Node) returns (st: Status, r: Node)
      requires Valid()
      modifies this
      ensures Valid() && (st != Panic ==> old(cursor) <= cursor) && r.kind == n.kind
      ensures NoOperandAt(old(cursor)) ==> st == Reject && cursor == old(cursor) && r == n
      ensures st != Panic ==> (st == Accept <==> FactorIdent(old(cursor)) != FactorConst(old(cursor)))
      ensures st != Panic ==>
                cursor == old(cursor) + (if FactorIdent(old(cursor)) then 1 else 0) + (if FactorConst(old(cursor)) then 1 else 0)
      ensures st == Accept ==> Appended(n, r, [if FactorIdent(old(cursor)) then Identifier else Constant])
      ensures st == Accept && n.children == [] ==> r.properties == n.properties["terminal" := tokens[old(cursor)].val]
      ensures st == Accept ==> "terminal" in r.properties
      ensures st != Accept ==> r == n
      ensures n.children == [] && LoneArithAt(old(cursor)) ==> st == Accept && cursor == old(cursor) + 1
      ensures var c := old(cursor);
              c < |tokens| && (FactorIdent(c) ==> c + 1 < |tokens|) && FactorIdent(c) == FactorConst(c) ==> st == Reject
      decreases |tokens| - cursor, Rank(ArithFactor), 1
    {
      var identifierParse, identifierNode := ParseTerminal(CreateNode(Identifier));
      if identifierParse == Panic { return Panic, n; }
      var constantParse, constantNode := ParseTerminal(CreateNode(Constant));
      if constantParse == Panic { return Panic, n; }
      if (identifierParse == Accept) != (constantParse == Accept) {
        var cur := Push(n, if identifierParse == Accept then identifierNode else constantNode);
        var first := cur.children[0];
        if "value" !in first.properties { return Panic, n; }
        return Accept, WithProperty(cur, "terminal", first.properties["value"]);
      }
      return Reject, n;
    }

    /** `parse_arith_factor` with a failed attempt undone: the cursor goes
        back to where the attempt started. */
    method ParseArithFactorRewinding(n: Node) returns (st: Status, r: Node)
      requires Valid()
      modifies this
      ensures Valid() && r.kind == n.kind
      ensures st != Panic ==> (st == Accept <==> FactorIdent(old(cursor)) != FactorConst(old(cursor)))
      ensures st == Accept ==>
                && cursor == old(cursor) + 1
                && Appended(n, r, [if FactorIdent(old(cursor)) then Identifier else Constant])
      ensures st == Reject ==> cursor == old(cursor) && r == n
      ensures var c := old(cursor);
              c < |tokens| && (FactorIdent(c) ==> c + 1 < |tokens|) && FactorIdent(c) == FactorConst(c) ==> st == Reject
    {
      var start := cursor;
      st, r := ParseArithFactor(n);
      if st == Reject {
        cursor := start;
      }
    }

    // -------------------------------------------------------------------------
    // Boolean expressions, shared by both snapshots except the operand

    /** `term subexpr`, passing up the term's "terminal" when it has one. */
    method ParseBoolExpr(n: Node) returns (st: Status, r: Node)
      requires Valid()
      modifies this
      ensures Valid() && (st != Panic ==> old(cursor) <= cursor) && r.kind == n.kind
      ensures st == Accept ==>
                && old(cursor) < cursor
                && Appended(n, r, [BoolTerm, BoolSubexpr])
                && r.properties == CopyKey(n.properties, r.children[0], "terminal")
      ensures st != Accept ==> r == n
      ensures LoneBoolAt(old(cursor), old(scopes.Tables())) ==> st == Accept && cursor == old(cursor) + 1
      ensures SeparatorAt(old(cursor)) ==> st == Reject && cursor == old(cursor)
      decreases |tokens| - cursor, Rank(BoolExpr), 1
    {
      var s1, term := ParseKeepingTables(CreateNode(BoolTerm));
      if s1 != Accept { return s1, n; }
      var s2, subexpr := ParseKeepingTables(CreateNode(BoolSubexpr));
      if s2 != Accept { return s2, n; }
      AppendedPair(n, term, subexpr);
      var cur := PushAll(n, [term, subexpr]);
      return Accept, cur.(properties := CopyKey(cur.properties, cur.children[0], "terminal"));
    }

    /** `|| term subexpr`, or nothing before a separator or operator. */
    method ParseBoolSubexpr(n: Node) returns (st: Status, r: Node)
      requires Valid()
      modifies this
      ensures Valid() && (st != Panic ==> old(cursor) <= cursor) && r.kind == n.kind
      ensures st == Accept ==>
                || (&& Appended(n, r, [Operator, BoolTerm, BoolSubexpr])
                    && old(cursor) < |tokens| && tokens[old(cursor)].val == "||"
                    && (n.children == [] ==> r.properties == n.properties["operator" := "||"]))
                || (r == n && OperatorOrSeparatorAt(cursor))
      ensures st != Accept ==> r == n
      ensures OperatorOrSeparatorAt(old(cursor)) && tokens[old(cursor)].val != "||" ==> st == Accept && r == n && cursor == old(cursor)
      decreases |tokens| - cursor, Rank(BoolSubexpr), 1
    {
      if cursor >= |tokens| { return Panic, n; }
      if tokens[cursor].val == "||" {
        var sChain, chain := ParseBoolChain(n, BoolTerm, BoolSubexpr);
        if sChain != Reject { return sChain, chain; }
      }
      if cursor >= |tokens| { return Panic, n; }
      if Lexer.IsSeparator(tokens[cursor].val) { return Accept, n; }
      if Lexer.IsOperator(tokens[cursor].val) { return Accept, n; }
      return Reject, n;
    }

    /** `factor subterm`, passing up the factor's "terminal" when it has one. */
    method ParseBoolTerm(n: Node) returns (st: Status, r: Node)
      requires Valid()
      modifies this
      ensures Valid() && (st != Panic ==> old(cursor) <= cursor) && r.kind == n.kind
      ensures st == Accept ==>
                && old(cursor) < cursor
                && Appended(n, r, [BoolFactor, BoolSubterm])
                && r.properties == CopyKey(n.properties, r.children[0], "terminal")
      ensures st != Accept ==> r == n
      ensures LoneBoolAt(old(cursor), old(scopes.Tables())) ==> st == Accept && cursor == old(cursor) + 1
      ensures SeparatorAt(old(cursor)) ==> st == Reject && cursor == old(cursor)
      decreases |tokens| - cursor, Rank(BoolTerm), 1
    {
      var s1, factor := ParseKeepingTables(CreateNode(BoolFactor));
      if s1 != Accept { return s1, n; }
      var s2, subterm := ParseKeepingTables(CreateNode(BoolSubterm));
      if s2 != Accept { return s2, n; }
      AppendedPair(n, factor, subterm);
      var cur := PushAll(n, [factor, subterm]);
      return Accept, cur.(properties := CopyKey(cur.properties, cur.children[0], "terminal"));
    }

    /** `&& factor subterm`, or nothing before a separator or operator. */
    method ParseBoolSubterm(n: Node) returns (st: Status, r: Node)
      requires Valid()
      modifies this
      ensures Valid() && (st != Panic ==> old(cursor) <= cursor) && r.kind == n.kind
      ensures st == Accept ==>
                || (&& Appended(n, r, [Operator, BoolFactor, BoolSubterm])
                    && old(cursor) < |tokens| && tokens[old(cursor)].val == "&&"
                    && (n.children == [] ==> r.properties == n.properties["operator" := "&&"]))
                || (r == n && OperatorOrSeparatorAt(cursor))
      ensures st != Accept ==> r == n
      ensures OperatorOrSeparatorAt(old(cursor)) && tokens[old(cursor)].val != "&&" ==> st == Accept && r == n && cursor == old(cursor)
      decreases |tokens| - cursor, Rank(BoolSubterm), 1
    {
      if cursor >= |tokens| { return Panic, n; }
      if tokens[cursor].val == "&&" {
        var sChain, chain := ParseBoolChain(n, BoolFactor, BoolSubterm);
        if sChain != Reject { return sChain, chain; }
      }
      if cursor >= |tokens| { return Panic, n; }
      if Lexer.IsSeparator(tokens[cursor].val) { return Accept, n; }
      if Lexer.IsOperator(tokens[cursor].val) { return Accept, n; }
      return Reject, n;
    }

    /** `operand subfactor`, passing up the operand's "terminal" when it has one. */
    method ParseBoolFactor(n: Node) returns (st: Status, r: Node)
      requires Valid()
      modifies this
      ensures Valid() && (st != Panic ==> old(cursor) <= cursor) && r.kind == n.kind
      ensures st == Accept ==>
                && old(cursor) < cursor
                && Appended(n, r, [BoolOperand, BoolSubfactor])
                && r.properties == CopyKey(n.properties, r.children[0], "terminal")
      ensures st != Accept ==> r == n
      ensures LoneBoolAt(old(cursor), old(scopes.Tables())) ==> st == Accept && cursor == old(cursor) + 1
      ensures SeparatorAt(old(cursor)) ==> st == Reject && cursor == old(cursor)
      decreases |tokens| - cursor, Rank(BoolFactor), 1
    {
      var s1, operand := ParseKeepingTables(CreateNode(BoolOperand));
      if s1 != Accept { return s1, n; }
      var s2, subfactor := ParseKeepingTables(CreateNode(BoolSubfactor));
      if s2 != Accept { return s2, n; }
      AppendedPair(n, operand, subfactor);
      var cur := PushAll(n, [operand, subfactor]);
      return Accept, cur.(properties := CopyKey(cur.properties, cur.children[0], "terminal"));
    }

    /** `== operand subfactor`, `!= operand subfactor`, or nothing before a
        separator or operator. */
    method ParseBoolSubfactor(n: Node) returns (st: Status, r: Node)
      requires Valid()
      modifies this
      ensures Valid() && (st != Panic ==> old(cursor) <= cursor) && r.kind == n.kind
      ensures st == Accept ==>
                || (&& Appended(n, r, [Operator, BoolOperand, BoolSubfactor])
                    && old(cursor) < |tokens| && tokens[old(cursor)].val in {"==", "!="}
                    && (n.children == [] ==> r.properties == n.properties["operator" := tokens[old(cursor)].val]))
                || (r == n && OperatorOrSeparatorAt(cursor))
      ensures st != Accept ==> r == n
      ensures OperatorOrSeparatorAt(old(cursor)) && tokens[old(cursor)].val !in {"==", "!="} ==> st == Accept && r == n && cursor == old(cursor)
      decreases |tokens| - cursor, Rank(BoolSubfactor), 1
    {
      if cursor >= |tokens| { return Panic, n; }
      if tokens[cursor].val == "==" || tokens[cursor].val == "!=" {
        var sChain, chain := ParseBoolChain(n, BoolOperand, BoolSubfactor);
        if sChain != Reject { return sChain, chain; }
      }
      if cursor >= |tokens| { return Panic, n; }
      if Lexer.IsSeparator(tokens[cursor].val) { return Accept, n; }
      if Lexer.IsOperator(tokens[cursor].val) { return Accept, n; }
      return Reject, n;
    }

    /** The `op child tail` attempt of the three boolean tails: the operator
        terminal, then the child and the tail; "operator" is read back from
        the first child of the result, which is that operator when the node
        had no children. */
    method ParseBoolChain(n: Node, child: NodeType, tail: NodeType) returns (st: Status, r: Node)
      requires Valid() && cursor < |tokens|
      requires (child, tail) in {(BoolTerm, BoolSubexpr), (BoolFactor, BoolSubterm), (BoolOperand, BoolSubfactor)}
      modifies this
      ensures Valid() && (st != Panic ==> old(cursor) <= cursor)
      ensures st == Accept ==>
                && Appended(n, r, [Operator, child, tail])
                && (n.children == [] ==> r.properties == n.properties["operator" := tokens[old(cursor)].val])
      ensures st != Accept ==> r == n
      decreases |tokens| - cursor, Rank(tail), 0
    {
      var s1, op := ParseTerminal(CreateNode(Operator));
      if s1 != Accept { return s1, n; }
      var s2, childNode := ParseKeepingTables(CreateNode(child));
      if s2 != Accept { return s2, n; }
      var s3, tailNode := ParseKeepingTables(CreateNode(tail));
      if s3 != Accept { return s3, n; }
      AppendedTriple(n, op, childNode, tailNode);
      var cur := PushAll(n, [op, childNode, tailNode]);
      var first := cur.children[0];
      assert n.children == [] ==> first == op;
      if "value" !in first.properties { return Panic, n; }
      return Accept, WithProperty(cur, "operator", first.properties["value"]);
    }

    /** Where the operand proper starts: after a leading "!" operator token. */
    ghost function OperandStart(c: nat): nat {
      if c < |tokens| && tokens[c].val == "!" && tokens[c].tokenType == Lexer.TokenType.Operator then c + 1 else c
    }

    /** The kind of the child an accepted operand proper at `c` pushes. */
    ghost function OperandKind(c: nat): NodeType {
      if KeywordAt(c) then Keyword else Identifier
    }

    /** Neither a keyword nor a name is at `c`, so no operand proper starts there. */
    ghost predicate NoBoolOperandAt(c: nat) {
      c < |tokens| && !KeywordAt(c) && tokens[c].tokenType != Lexer.TokenType.Identifier
    }

    /** `parse_bool_operand`: an optional "!" (recorded as "unary"), then a
        keyword token, whose "terminal" is "0" for `false` and "1"
        otherwise. The expression_c.rs version also takes an identifier
        declared `bool`, with the name as "terminal", and for a name of
        another type moves the cursor back by one and fails. */
    method ParseBoolOperand(n: Node) returns (st: Status, r: Node)
      requires Valid()
      modifies this
      ensures Valid() && (st != Panic ==> old(cursor) <= cursor) && r.kind == n.kind
      ensures st == Accept ==> old(cursor) < cursor && "terminal" in r.properties
      ensures st == Accept && OperandStart(old(cursor)) == old(cursor) + 1 ==>
                "unary" in r.properties && r.properties["unary"] == "!"
      ensures var k := OperandStart(old(cursor));
              KeywordAt(k) ==>
                && st == Accept && cursor == k + 1 && "terminal" in r.properties
                && r.properties["terminal"] == (if tokens[k].val == "false" then "0" else "1")
      ensures var k := OperandStart(old(cursor));
              snapshot == Monolithic && k < |tokens| && !KeywordAt(k) ==> st == Reject
      ensures var k := OperandStart(old(cursor));
              snapshot == Split && k < |tokens| && tokens[k].tokenType == Lexer.TokenType.Identifier ==>
                if |scopes.stack| == 0 || SymbolTables.Resolve(scopes.Tables(), tokens[k].val).None? then st == Panic
                else if SymbolTables.Resolve(scopes.Tables(), tokens[k].val).value.primitive == "bool" then
                  st == Accept && cursor == k + 1 && "terminal" in r.properties && r.properties["terminal"] == tokens[k].val
                else st == Reject && cursor == k
      ensures var c := old(cursor);
              st == Accept ==>
                if OperandStart(c) == c then Appended(n, r, [OperandKind(c)])
                else Appended(n, r, [Operator, OperandKind(c + 1)])
      ensures var c := old(cursor);
              st != Accept && OperandStart(c) == c ==> r == n
      ensures var c := old(cursor);
              st == Reject && OperandStart(c) == c + 1 ==>
                && Appended(n, r, [Operator]) && r.properties == n.properties["unary" := "!"] && cursor == c + 1
      ensures OperandStart(old(cursor)) == old(cursor) && NoBoolOperandAt(old(cursor)) ==>
                st == Reject && cursor == old(cursor) && r == n
      decreases |tokens| - cursor, Rank(BoolOperand), 1
    {
      if cursor >= |tokens| { return Panic, n; }
      if tokens[cursor].val == "!" && tokens[cursor].tokenType == Lexer.TokenType.Operator {
        st, r := ParseNegatedOperand(n);
      } else {
        // A "!" of another token type is refused by `parse_terminal`, which
        // leaves the cursor where it was.
        st, r := ParseOperandProper(n);
      }
    }

    /** The "!" branch of `parse_bool_operand`: the operator terminal, marked
        "unary" on the node, then the operand proper. */
    method ParseNegatedOperand(n: Node) returns (st: Status, r: Node)
      requires Valid() && OperandStart(cursor) == cursor + 1
      modifies this
      ensures Valid() && (st != Panic ==> old(cursor) <= cursor) && r.kind == n.kind
      ensures st == Accept ==>
                && old(cursor) < cursor && "terminal" in r.properties
                && "unary" in r.properties && r.properties["unary"] == "!"
                && Appended(n, r, [Operator, OperandKind(old(cursor) + 1)])
      ensures var k := old(cursor) + 1;
              KeywordAt(k) ==>
                && st == Accept && cursor == k + 1 && "terminal" in r.properties
                && r.properties["terminal"] == (if tokens[k].val == "false" then "0" else "1")
      ensures var k := old(cursor) + 1;
              snapshot == Monolithic && k < |tokens| && !KeywordAt(k) ==> st == Reject
      ensures var k := old(cursor) + 1;
              snapshot == Split && k < |tokens| && tokens[k].tokenType == Lexer.TokenType.Identifier ==>
                if |scopes.stack| == 0 || SymbolTables.Resolve(scopes.Tables(), tokens[k].val).None? then st == Panic
                else if SymbolTables.Resolve(scopes.Tables(), tokens[k].val).value.primitive == "bool" then
                  st == Accept && cursor == k + 1 && "terminal" in r.properties && r.properties["terminal"] == tokens[k].val
                else st == Reject && cursor == k
      ensures st == Reject ==>
                && Appended(n, r, [Operator]) && r.properties == n.properties["unary" := "!"] && cursor == old(cursor) + 1
      decreases |tokens| - cursor, Rank(BoolOperand), 0
    {
      var _, op := ParseTerminal(CreateNode(Operator));
      var start := cursor;
      var cur := WithProperty(Push(n, op), "unary", "!");
      st, r := ParseOperandProper(cur);
      if st == Accept {
        AppendedTrans(n, cur, r, [Operator], [OperandKind(start)]);
      }
    }

    /** The rest of `parse_bool_operand`, after the optional "!": the
        keyword, or in expression_c.rs a name declared `bool`. Only
        "terminal" is added to the node's properties. */
    method ParseOperandProper(n: Node) returns (st: Status, r: Node)
      requires Valid()
      modifies this
      ensures Valid() && (st != Panic ==> old(cursor) <= cursor) && r.kind == n.kind
      ensures st == Accept ==>
                && old(cursor) < cursor && "terminal" in r.properties
                && r.properties == n.properties["terminal" := r.properties["terminal"]]
      ensures KeywordAt(old(cursor)) ==>
                && st == Accept && cursor == old(cursor) + 1 && "terminal" in r.properties
                && r.properties["terminal"] == (if tokens[old(cursor)].val == "false" then "0" else "1")
      ensures snapshot == Monolithic && old(cursor) < |tokens| && !KeywordAt(old(cursor)) ==> st == Reject
      ensures var k := old(cursor);
              snapshot == Split && k < |tokens| && tokens[k].tokenType == Lexer.TokenType.Identifier ==>
                if |scopes.stack| == 0 || SymbolTables.Resolve(scopes.Tables(), tokens[k].val).None? then st == Panic
                else if SymbolTables.Resolve(scopes.Tables(), tokens[k].val).value.primitive == "bool" then
                  st == Accept && cursor == k + 1 && "terminal" in r.properties && r.properties["terminal"] == tokens[k].val
                else st == Reject && cursor == k
      ensures st == Accept ==>
                && Appended(n, r, [OperandKind(old(cursor))])
                && r.children[|n.children|].properties == map["value" := tokens[old(cursor)].val]
      ensures st != Accept ==> r == n
      ensures st == Reject ==> cursor == old(cursor)
      ensures NoBoolOperandAt(old(cursor)) ==> st == Reject
    {
      var identifierNode := CreateNode(Identifier);
      var sKeyword, keyword := ParseTerminal(CreateNode(Keyword));
      if sKeyword == Panic { return Panic, n; }
      if sKeyword == Accept {
        var cur := Push(n, if "value" in identifierNode.properties then identifierNode else keyword);
        var last := cur.children[|cur.children| - 1];
        var terminal := if last.properties["value"] == "false" then "0" else "1";
        return Accept, WithProperty(cur, "terminal", terminal);
      }
      if snapshot == Split {
        var sName;
        sName, identifierNode := ParseTerminal(identifierNode);
        if sName == Panic { return Panic, n; }
        if sName == Accept {
          if |scopes.stack| == 0 { return Panic, n; }
          var name := identifierNode.properties["value"];
          var declared := scopes.ScopeLookup(name);
          if declared.None? { return Panic, n; }
          if declared.value.primitive == "bool" {
            var cur := WithProperty(n, "terminal", name);
            return Accept, Push(cur, identifierNode);
          }
          var _ := PrevTokenIndex();
          return Reject, n;
        }
      }
      return Reject, n;
    }
  }
}
