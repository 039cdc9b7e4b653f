/** Two places where the parser's code and its evident intent part ways,
    each shown on a concrete token sequence, next to the corrected form. */
module Findings {
  import opened Syntax
  import Lexer
  import FlatSymbols
  import SymbolTables
  import P = Parser

  /** A parser of either snapshot over `tokens`, with empty tables. */
  method NewParser(snapshot: P.Snapshot, tokens: seq<Lexer.Token>) returns (p: P.Parser)
    ensures p.snapshot == snapshot && p.tokens == tokens && p.cursor == 0 && p.Valid()
    ensures |p.scopes.stack| == 0
    ensures fresh(p) && fresh(p.scopes)
  {
    var flat := new FlatSymbols.STManager(0);
    var scopes := new SymbolTables.STManager();
    p := new P.Parser(snapshot, tokens, flat, scopes);
  }

  /** As written: `false` lexes as an identifier, so the operand rule of
      parse_c.rs, which only takes a keyword, rejects it, and the rule of
      expression_c.rs panics looking the name up in an empty scope stack. */
  method BooleanLiteralRejected() returns (monolithic: P.Status, split: P.Status)
    ensures monolithic == P.Reject && split == P.Panic
  {
    var tokens := [Lexer.ConstructToken("false"), Lexer.ConstructToken(";")];
    Lexer.NonKeywordWords();
    var p := NewParser(P.Monolithic, tokens);
    var node;
    monolithic, node := p.ParseBoolOperand(CreateNode(BoolOperand));
    var q := NewParser(P.Split, tokens);
    split, node := q.ParseBoolOperand(CreateNode(BoolOperand));
  }

  /** Corrected: with the literals typed as keywords, `false` is an operand
      whose "terminal" is "0", in both snapshots. */
  method BooleanLiteralAccepted() returns (monolithic: string, split: string)
    ensures monolithic == "0" && split == "0"
  {
    var tokens := [Lexer.ConstructTokenWithLiterals("false"), Lexer.ConstructTokenWithLiterals(";")];
    var p := NewParser(P.Monolithic, tokens);
    var st, r := p.ParseBoolOperand(CreateNode(BoolOperand));
    monolithic := r.properties["terminal"];
    var q := NewParser(P.Split, tokens);
    st, r := q.ParseBoolOperand(CreateNode(BoolOperand));
    split := r.properties["terminal"];
  }

  /** `x 5`: a name followed by a constant. */
  function NameThenConstant(): seq<Lexer.Token> {
    [Lexer.Token(Lexer.Identifier, "x"), Lexer.Token(Lexer.Constant, "5")]
  }

  /** As written: the factor rule takes both attempts, so on `x 5` it fails
      with both tokens consumed; a caller trying another rule starts past them. */
  method FactorRejectMovesCursor() returns (st: P.Status, cursor: nat)
    ensures st == P.Reject && cursor == 2
  {
    var p := NewParser(P.Monolithic, NameThenConstant());
    var node;
    st, node := p.ParseArithFactor(CreateNode(ArithFactor));
    cursor := p.cursor;
  }

  /** Corrected: the rewinding factor rule fails on `x 5` with the cursor
      where it started. */
  method FactorRejectRewound() returns (st: P.Status, cursor: nat)
    ensures st == P.Reject && cursor == 0
  {
    var p := NewParser(P.Monolithic, NameThenConstant());
    var node;
    st, node := p.ParseArithFactorRewinding(CreateNode(ArithFactor));
    cursor := p.cursor;
  }
}
