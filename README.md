# A verified model of a small C-subset compiler

This project models, in Dafny, the core of a compiler for a small C-like
language written in Rust. The compiler works in four stages:

- **Lexer (token_c.rs).** It cuts the source text into tokens at white space,
  at one-character operators and at separators. It gives each token a type:
  separator, keyword, primitive, operator, identifier (the text contains a
  letter), constant (it contains a digit) or default.
- **Parser (parse_c.rs, expression_c.rs, statement_c.rs).** A
  recursive-descent parser with one production per node kind. All
  productions share a global token cursor. Each production fills in the node
  it is given and answers accept or reject. Two snapshots of the productions
  exist:
  - `Monolithic` follows parse_c.rs, where every production lives. It records
    declarations in a single flat symbol table.
  - `Split` follows expression_c.rs and statement_c.rs. It records
    declarations in the top frame of a scope stack.
- **Symbol tables (parse_c.rs, symbol_table_c.rs).** A declared variable
  gets an 8-byte stack slot numbered by a running `ordinal`. The scoped
  manager searches its frames from the innermost outward, but never looks
  at frame 0.
- **Code generator (generation_c.rs).** It walks the parse tree and writes
  x86-64 assembly text between an entry stub and an `exit` system call. The
  same file also has a constant folder for `+ - * /` on i32 text, a register
  pool and a label counter.

A Rust panic is modelled explicitly: the parser's `Panic` status and the
`Panics` outcome of the generator and the folder. Examples are an index past
the last token, a missing property, an `unwrap` of `None`, or i32 overflow in
a debug build. Nothing is observable after a panic. The model targets
Dafny 4.11.

Files:
- `common.dfy`: `Option` and `Outcome`.
- `lexer.dfy`: token_c.rs.
- `decimal.dfy`: decimal text of integers, `format!("{}")` and `parse::<i32>`.
- `syntax.dfy`: the parse tree, shared by the parser and the generator.
- `flat_symbols.dfy`: the `STManager` of parse_c.rs.
- `symbol_tables.dfy`: symbol_table_c.rs.
- `parser.dfy`: the productions of both parser snapshots.
- `generation.dfy`: generation_c.rs.
- `findings.dfy`: concrete runs that exhibit the findings below, and their corrections.

Where the source files disagree with one another, the model follows the
code:
- generation_c.rs uses node kinds (`Expression`, `ReturnStatement`) and a
  `value` field that parse_c.rs's `Node` does not have. The model's node kind
  is the union of all variants. The generator's `value` is read as the
  node's "value" property, and an absent property reads as the empty text.
- The generator's return rule matches `ReturnStatement`. The parser builds
  `Return_Stmt`. So on trees the parser builds, that rule never fires.
- The for-statement of parse_c.rs pushes all eleven children and then
  reports failure. statement_c.rs reports success. Each snapshot keeps its
  own behaviour.
- statement_c.rs calls a three-argument `insert` on parse_c.rs's
  `SymbolTable`, a type parse_c.rs does not declare with that method.
  expression_c.rs takes an `Rc<STNode>`, and no file defines `STNode`. Both
  are read as symbol_table_c.rs's `STManager`. A declaration binds its name
  with `scope_bind` in the top frame, and a use looks it up with
  `scope_lookup`.
- The `parse` dispatcher of parse_c.rs:209-280 only calls parse_c.rs's own
  productions. Nothing in the source selects the productions of
  expression_c.rs and statement_c.rs. The `Split` snapshot, which routes the
  dispatcher to them, is this model's construction.
- The lexer's keyword list has no `true` or `false`. So these words lex as
  identifiers, and `parse_bool_operand`'s keyword branch never sees them
  (see Findings).

## Model

| member | source | states |
|---|---|---|
| Lexer.IsWhitespace | token_c.rs:31-34 | true exactly when some character of the input is white space, as an unanchored `\s+` match |
| Lexer.IsOperator | token_c.rs:36-57 | true exactly for the sixteen listed operator spellings |
| Lexer.IsIdentifier | token_c.rs:59-61 | true exactly when the first character is a letter; the source's `unwrap` on empty text is the precondition, and every caller in the parser panics on empty text before calling it |
| Lexer.IsSeparator | token_c.rs:63-73 | true exactly for `( ) { } ;` |
| Lexer.IsKeyword | token_c.rs:75-86 | true exactly for `if`, `else if`, `else`, `while`, `for`, `return` |
| Lexer.IsPrimitive | token_c.rs:88-97 | true exactly for `int`, `float`, `bool`, `char` |
| Lexer.ConstructToken | token_c.rs:99-128 | the token keeps its text; its type is the first matching class, each stated as an if-and-only-if: separator, keyword, primitive, operator, letter anywhere, digit anywhere, otherwise default; never `Special` |
| Lexer.FixedClassesDisjoint | token_c.rs:36-97 | no text is in two of the four fixed classes, so the order of the tests in `construct_token` only matters for the regex classes |
| Lexer.ConstructTokenOfFixedClass | token_c.rs:99-128 | every operator, separator, keyword and primitive spelling gets its own class's type |
| Lexer.NonKeywordWords | token_c.rs:75-86 | `elif`, `true` and `false` are not keywords; they lex as identifiers |
| Lexer.ConstructTokenWithLiterals | token_c.rs:99-128 | the corrected lexer: the token keeps its text, is a keyword exactly when its text is a keyword or `true`/`false`, and is `construct_token`'s token for every other text |
| Lexer.LexFile | token_c.rs:131-166 | the loop's tokens equal the character-by-character reference `Run` over the input |
| Lexer.RunWellFormed | token_c.rs:131-166 | every token is typed by `construct_token` from its own text, and is one special character or a non-empty run free of white space and special characters |
| Lexer.WellFormedHasNoWhitespace | token_c.rs:131-166 | no token is empty or contains white space |
| Lexer.SpecialCharsStandAlone | token_c.rs:154-161 | an operator or separator character only ever appears alone in its token |
| Lexer.NoCompoundOperators | token_c.rs:150-161 | no two-character operator (`==`, `!=`, `<=`, `>=`, `+=`, `-=`) is ever produced |
| Lexer.RunConcat | token_c.rs:131-166 | the tokens' texts plus the pending run concatenate to the input with white space removed |
| Lexer.PendingIsFinalRun | token_c.rs:131-166 | the pending run is the input's last run of ordinary characters, right after a white space or special character |
| Lexer.LexFileCompleteWhenTerminated | token_c.rs:131-166 | an input ending in white space or a special character loses no text |
| Lexer.RunSnoc | token_c.rs:142-163 | one more character is one more loop step |
| Lexer.StepOrdinary | token_c.rs:163 | a letter only extends the pending run |
| Lexer.RunOfPlain | token_c.rs:163 | a run of ordinary characters pushes nothing |
| Lexer.RunOfInt | token_c.rs:131-166 | `int` alone stays pending |
| Lexer.LexFileDropsFinalRun | token_c.rs:165 | the final run is not flushed: `int x` lexes to the single token `int` |
| Decimal.NatToString | generation_c.rs:100 | the decimal text of a natural is non-empty, all digits, and has no leading zero |
| Decimal.ParseI32 | generation_c.rs:100 | `parse::<i32>` accepts only an optional sign followed by digits, with a value in the i32 range |
| Decimal.DigitsValueOfNatToString | generation_c.rs:100 | reading the decimal text back gives the number |
| Decimal.NatToStringInjective | generation_c.rs:100 | distinct numbers have distinct decimal texts |
| Decimal.ParseIntToString | generation_c.rs:100-109 | parsing the formatted text of an i32 gives it back |
| Decimal.ParseRejectsOutOfRange | generation_c.rs:100-109 | the text of a number outside the i32 range does not parse |
| Decimal.ParseRejectsNonNumbers | generation_c.rs:100-109 | empty text, a bare sign, and trailing letters do not parse |
| Syntax.CreateNode | parse_c.rs:198-205 | a node of the requested kind with no children and no properties |
| Syntax.Kinds | parse_c.rs:191-196 | the kinds of a child sequence, position by position |
| Syntax.Push | parse_c.rs:191-196 | `children.push` appends exactly that child and keeps the properties |
| Syntax.PushAll | parse_c.rs:191-196 | several pushes append exactly those children, in order |
| Syntax.AppendedTrans | parse_c.rs:191-196 | pushing twice appends the two kind sequences one after the other |
| FlatSymbols.GetPrimitiveSize | parse_c.rs:73-82 | 8 for `int`, `char`, `bool`; 0 for every other type name |
| FlatSymbols.InsertKeepsSlotsValid | parse_c.rs:129-135 | an insert keeps every name in its own 8-aligned slot below `ordinal * 8` |
| FlatSymbols.SlotEndWithinNextSlot | parse_c.rs:129-135 | a new symbol's `addr + size` lies within one slot of `addr`, and is exactly `(ordinal + 1) * 8` for `int` |
| FlatSymbols.STManager.Insert | parse_c.rs:129-135 | binds the name to slot `ordinal` sized by its type, overwriting, advances `ordinal` by one, and keeps the slots valid |
| FlatSymbols.STManager.Query | parse_c.rs:137-139 | `Some` exactly when bound, with the bound symbol |
| FlatSymbols.STManager.ModifyRegister | parse_c.rs:141-151 | only the register of that binding changes; slots stay valid |
| SymbolTables.InsertKeepsSlotsValid | symbol_table_c.rs:21-27 | a frame insert keeps every name in its own 8-aligned slot |
| SymbolTables.ModifyRegisterKeepsSlotsValid | symbol_table_c.rs:33-44 | changing a register keeps the slots valid |
| SymbolTables.SymbolTable.Insert | symbol_table_c.rs:21-27 | binds the name to an 8-byte symbol in slot `ordinal`, advances `ordinal`, keeps the slots valid |
| SymbolTables.SymbolTable.Query | symbol_table_c.rs:29-31 | `Some` exactly when bound, with the bound symbol |
| SymbolTables.SymbolTable.ModifyRegister | symbol_table_c.rs:33-44 | only the register of that binding changes |
| SymbolTables.ResolveUpToFound | symbol_table_c.rs:81-90 | the lookup below frame `k` finds a symbol exactly when one of frames 1 to `k-1` binds the name |
| SymbolTables.ResolveUpToInnermost | symbol_table_c.rs:81-90 | the innermost binding below `k` is the one found |
| SymbolTables.ResolveInnermost | symbol_table_c.rs:81-90 | a lookup returns the binding of the innermost frame binding the name |
| SymbolTables.ResolveUnbound | symbol_table_c.rs:81-90 | a name no frame from 1 up binds is not found |
| SymbolTables.ResolveIgnoresFrameZero | symbol_table_c.rs:83 | frame 0 is never consulted: replacing it changes no lookup |
| SymbolTables.BindInOnlyFrameIsInvisible | symbol_table_c.rs:76-90 | a name bound while only one frame exists cannot be looked up |
| SymbolTables.ResolveAfterEnter | symbol_table_c.rs:56-66 | entering a scope hides no binding |
| SymbolTables.ResolveUpToPrefix | symbol_table_c.rs:81-90 | the lookup below `k` depends only on frames below `k` |
| SymbolTables.ResolveAfterBindTop | symbol_table_c.rs:76-79 | after a bind in the top frame (two or more frames), the name resolves to the new symbol, shadowing outer ones, and other names resolve as before |
| SymbolTables.ResolveAfterExit | symbol_table_c.rs:68-70 | leaving a scope that does not bind a name restores that name's outer binding |
| SymbolTables.STManager.constructor | symbol_table_c.rs:51-53 | an empty stack |
| SymbolTables.STManager.ScopeEnter | symbol_table_c.rs:56-66 | pushes a fresh empty frame whose ordinal is 1, or the top frame's ordinal; the older frames are untouched |
| SymbolTables.STManager.ScopeExit | symbol_table_c.rs:68-70 | pops the top frame; an empty stack stays empty |
| SymbolTables.STManager.ScopeLevel | symbol_table_c.rs:72-74 | the number of frames |
| SymbolTables.STManager.ScopeBind | symbol_table_c.rs:76-79 | only the top frame changes, by an insert; the stack itself is unchanged |
| SymbolTables.STManager.ScopeLookup | symbol_table_c.rs:81-90 | the loop returns the reference lookup `Resolve` over the frames' contents |
| SymbolTables.STManager.ScopeLookupCurrent | symbol_table_c.rs:92-98 | the binding in the top frame only |
| Parser.Parser.constructor | parse_c.rs:70 | the token cursor starts at 0 |
| Parser.Parser.GetCurrentTokenIndex | parse_c.rs:85-90 | the cursor |
| Parser.Parser.TokenLookahead | parse_c.rs:92-96 | one past the cursor |
| Parser.Parser.NextTokenIndex | parse_c.rs:98-104 | the cursor moves on by one and is returned |
| Parser.Parser.PrevTokenIndex | parse_c.rs:106-111 | the cursor moves back by one (a 0 cursor would underflow) |
| Parser.Parser.Parse | parse_c.rs:209-280 | dispatch by node kind: a terminal matches one token of its type; a consuming production that accepts moves the cursor forward; a kind that starts with a name rejects a keyword without moving; every expression kind keeps the tables as they were |
| Parser.Parser.ParseKeepingTables | parse_c.rs:225-259 | expression productions: reject an operand-less position without moving, and move forward when they accept |
| Parser.Parser.ParseArith | parse_c.rs:225-233 | the five arithmetic productions, with the reject case above |
| Parser.Parser.ParseBool | parse_c.rs:235-247 | the seven boolean productions move forward when they accept |
| Parser.Parser.ParseControl | parse_c.rs:263-271 | the if, elif, else, while and for productions move forward when they accept |
| Parser.Parser.ParseDeclaration | parse_c.rs:213-261 | program, function, body, optional expression, statement and declaration; a declaration rejects a keyword without moving |
| Parser.Parser.ParseTerminal | parse_c.rs:341-350 | accepts exactly when the current token has the wanted type; then records its text as "value" and moves on by one; otherwise nothing changes |
| Parser.Parser.ParseStartNode | parse_c.rs:282-300 | on accept exactly one function declaration child is appended |
| Parser.Parser.ParseFuncDecl | parse_c.rs:302-339 | on accept: primitive, identifier, `(`, `)`, `{`, body, `}` appended, the first two holding the texts of the first two tokens |
| Parser.Parser.ParseSequence | parse_c.rs:913-947 | a fixed sequence of productions: on accept all their kinds appended in order and the properties kept; a wrong first token rejects without moving; on reject or panic the node is returned unchanged |
| Parser.Parser.ParseBody | parse_c.rs:506-520 | statements are appended until `}`, which is not consumed; a `}` at once accepts with nothing appended |
| Parser.Parser.ParseRetStmt | parse_c.rs:481-504 | on accept: keyword, arithmetic expression, separator |
| Parser.Parser.ParseIfStmt | parse_c.rs:913-947 | on accept: `if ( cond ) { body }` followed by an elif node |
| Parser.Parser.ParseElifStmt | parse_c.rs:949-994 | a token other than `elif`/`else` accepts with nothing consumed; `elif` repeats the if shape; `else` appends an else node |
| Parser.Parser.ParseElseStmt | parse_c.rs:996-1023 | a token other than `else` accepts with nothing consumed; otherwise `else { body }` |
| Parser.Parser.ParseWhileStmt | parse_c.rs:1044-1075 | on accept: `while ( cond ) { body }` |
| Parser.Parser.ParseForStmt | parse_c.rs:1077-1128 | the Monolithic snapshot never accepts, even after appending all eleven children; the Split snapshot accepts with them |
| Parser.Parser.ParseStatementMonolithic | parse_c.rs:352-395 | `return` gives a return statement, otherwise a declaration; a keyword other than `return` rejects without moving |
| Parser.Parser.ParseVarDeclMonolithic | parse_c.rs:397-479 | a non-primitive, non-identifier token rejects; `type name ;` records "value" 0 and the identifier, inserts the name and advances `ordinal`; `type name op` either panics or appends five children, records the identifier, inserts the name and advances `ordinal`; a primitive followed by a non-identifier rejects with the primitive consumed; an unbound `name = …` panics, and a bound one records the identifier and leaves the table alone |
| Parser.Parser.ParseDeclTailMonolithic | parse_c.rs:410-448 | after `type name`: a separator gives the three-child declaration with "value" 0 and the identifier; an operator gives the five-child form with the identifier, or a panic; either way the name is inserted and `ordinal` advances by one |
| Parser.Parser.ParseDeclEndMonolithic | parse_c.rs:424-432 | `type name ;`: accepts with primitive, identifier and separator, records "value" 0 and the identifier, inserts the name in the next slot and advances `ordinal` by one |
| Parser.Parser.ParseDeclInitMonolithic | parse_c.rs:434-446 | the initialised declaration either panics or appends five children, records the name as "identifier", inserts it in the next slot and advances `ordinal` by one |
| Parser.Parser.ParseInitNode | parse_c.rs:434-446 | unless it panics: primitive, identifier, operator, the expression of the chosen kind and a separator appended, the cursor not moved back, the only new property "identifier" holding the returned name, which is the identifier's text |
| Parser.NamedDeclaration | parse_c.rs:438-443 | after the five pushes the "identifier" property is the second child's value, which is the name's text on a node that started with no children; `None` when that child has no value |
| Parser.Parser.ParseAssignMonolithic | parse_c.rs:451-476 | a non-identifier rejects; an unbound name panics; on accept the four children of an assignment whose right side fits the bound type, and the name's text recorded as "identifier" |
| Parser.NamedAssignment | parse_c.rs:466-471 | after the four pushes the only new property is "identifier", the first child's value, which is the name's text on a node that started with no children |
| Parser.Parser.ParseStatementSplit | statement_c.rs:6-73 | `return`, a primitive or an identifier start a return statement, a declaration or an assignment with its `;`; a keyword other than `return` rejects |
| Parser.Parser.ParseVarDeclSplit | statement_c.rs:75-118 | a non-primitive rejects; a name starting with a letter is bound in the top frame, otherwise no frame changes; on accept a primitive plus an assignment or a bare identifier |
| Parser.Parser.BindDeclName | statement_c.rs:90-92 | a name not starting with a letter leaves the stack unchanged; one starting with a letter is bound to the primitive in the top frame, and nothing else changes |
| Parser.Parser.ParseDeclRestSplit | statement_c.rs:94-112 | after the primitive: an assignment or an identifier, recording the identifier |
| Parser.Parser.ParseAssignExpr | expression_c.rs:470-503 | a non-identifier rejects; an unbound name panics; on accept `name = expr` with the right side fitting the bound type, the name's text recorded; a bound name without `=` rejects and backs up to the name; a bound name, `=` and then a separator rejects with the cursor back on the `=`; `x = 5` with `x` an `int` accepts and consumes three tokens |
| Parser.Parser.ParseAssignRest | expression_c.rs:485-500 | after the name: `=` then the expression; a failure steps back one token from where the attempt stopped, so a missing `=` backs up onto the name and `=` followed by a separator rejects with the cursor on the `=`; `= 5` followed by a token that ends the expression accepts with two tokens consumed |
| Parser.Parser.ParseAssignChain | expression_c.rs:485-495 | `=` then the expression: on accept identifier, operator and expression appended, the first child being the name; a lone operand after `=` accepts with two tokens consumed; a separator after `=` rejects with only the `=` consumed |
| Parser.Parser.ParseExpr | expression_c.rs:452-468 | the condition is tried first: on accept a condition or an arithmetic expression; a lone keyword token, or in the Split snapshot a declared `bool`, followed by a token that ends it gives a condition and consumes one token; a separator rejects without moving |
| Parser.Parser.ParseOptionalExprSplit | expression_c.rs:427-450 | accepts a declaration, an assignment, an expression, or nothing before a separator; a separator accepts at once with nothing appended or consumed; `x = 5` with `x` a declared `int` gives an assignment of three tokens; a lone keyword token or declared `bool` not followed by `=` gives an expression of one token |
| Parser.Parser.ParseOptionalAfterDecl | expression_c.rs:437-449 | the alternatives after the declaration, in the source's order: assignment, then expression, then nothing before a separator, with the same deciding cases |
| Parser.Parser.ParseOptionalExprMonolithic | parse_c.rs:1130-1148 | accepts an arithmetic or a condition expression, or nothing before a separator; a separator accepts at once with nothing appended or consumed; the arithmetic expression is tried first, so `i < 10 ;` gives an arithmetic expression after consuming only `i` |
| Parser.Parser.ParseCondExpr | parse_c.rs:1025-1042 | the boolean expression is tried first: on accept a boolean or a relational expression; a lone keyword token, or in the Split snapshot a declared `bool`, followed by a token that ends it gives a boolean expression and consumes one token; a separator rejects without moving |
| Parser.Parser.ParseRelationalExpr | parse_c.rs:891-911 | on accept `arith op arith` with the operator recorded |
| Parser.Parser.ParseArithExpr | parse_c.rs:522-545 | rejects when there is no operand; on accept term and subexpression, copying their "terminal" and "operator" |
| Parser.Parser.ParseArithSubexpr | parse_c.rs:547-589 | `+`/`-` then term and subexpression with the operator recorded, or a lone term whose "terminal" is copied, or empty before an operator or separator; such a position without an operand and with another operator accepts empty without moving |
| Parser.Parser.ParseSubexprChain | parse_c.rs:553-575 | the `+`/`-` branch: operator, term, subexpression |
| Parser.Parser.ParseArithTerm | parse_c.rs:591-615 | rejects when there is no operand; on accept factor and subterm, copying "terminal" and "operator" |
| Parser.Parser.ParseArithSubterm | parse_c.rs:617-659 | `*`/`/` then factor and subterm with the operator recorded, or a lone factor whose "terminal" is copied, or empty before an operator or separator; such a position without an operand and with another operator accepts empty without moving |
| Parser.Parser.ParseSubtermChain | parse_c.rs:623-645 | the `*`/`/` branch: operator, factor, subterm |
| Parser.Parser.ParseArithFactor | parse_c.rs:661-678 | tries an identifier and then a constant, and accepts exactly when one of the two attempts succeeds; the cursor moves by the number of successful attempts, so `x 5` rejects with both tokens consumed; on accept one child of that kind and its text recorded as "terminal" |
| Parser.Parser.ParseArithFactorRewinding | parse_c.rs:661-678 | the corrected factor: it accepts in the same cases with one token consumed, and on a reject the cursor is back where it started and the node unchanged |
| Parser.Parser.ParseBoolExpr | parse_c.rs:680-701 | on accept term and subexpression, copying "terminal"; a lone keyword token, or in the Split snapshot a declared `bool`, accepts with one token consumed; a separator rejects without moving |
| Parser.Parser.ParseBoolSubexpr | parse_c.rs:703-734 | `||` then term and subexpression with the operator recorded, or empty before an operator or separator; any operator or separator other than `||` accepts empty without moving |
| Parser.Parser.ParseBoolChain | parse_c.rs:713-726 | the operator branch shared by the three boolean tails: on accept operator, operand part and tail appended, the operator's text recorded; otherwise the node is unchanged |
| Parser.Parser.ParseBoolTerm | parse_c.rs:736-757 | on accept factor and subterm, copying "terminal" |
| Parser.Parser.ParseBoolSubterm | parse_c.rs:759-790 | `&&` then factor and subterm with the operator recorded, or empty before an operator or separator; any operator or separator other than `&&` accepts empty without moving |
| Parser.Parser.ParseBoolFactor | parse_c.rs:792-813 | on accept operand and subfactor, copying "terminal" |
| Parser.Parser.ParseBoolSubfactor | parse_c.rs:815-848 | `==`/`!=` then operand and subfactor with the operator recorded, or empty before an operator or separator; any operator or separator other than `==`/`!=` accepts empty without moving |
| Parser.Parser.ParseBoolOperand | parse_c.rs:850-889 | an optional `!` pushed and recorded as "unary"; a keyword token gives "terminal" 0 for `false` and 1 otherwise (the lexer never types `true`/`false` as keywords); Monolithic rejects any other token; Split looks an identifier up, panicking when unbound and accepting only a `bool`; the appended children are the `!` operator, if any, then the operand; a reject without `!` leaves the node and cursor alone, and a reject after `!` keeps the pushed `!` |
| Parser.Parser.ParseNegatedOperand | parse_c.rs:857-864 | the `!` branch: the operator is pushed and "unary" recorded before the operand is tried, and both stay on a reject |
| Parser.Parser.ParseOperandProper | expression_c.rs:350-382 | the operand after any `!`, with the same cases; on accept exactly one keyword or identifier child holding the token's text is appended and only "terminal" is set; on a reject the node and the cursor are unchanged |
| Generation.RegisterManager.Initialize | generation_c.rs:133-143 | seven registers `rbx`, `r10`…`r15`, in that order, all free |
| Generation.RegisterManager.RegisterAlloc | generation_c.rs:145-158 | the first free index, all before it in use; `None` exactly when every register is in use |
| Generation.RegisterManager.RegisterAllocMarking | generation_c.rs:145-158 | the first free index as above, now marked in use; nothing else changes |
| Generation.RegisterManager.RegisterFree | generation_c.rs:160-162 | only that register becomes free |
| Generation.RegisterManager.RegisterName | generation_c.rs:164-166 | the name of a register in the pool |
| Generation.AllocTwice | generation_c.rs:145-158 | two allocations in a row return the same answer |
| Generation.AllocTwiceMarking | generation_c.rs:145-158 | with marking, two allocations in a row return different registers |
| Generation.AllocAfterInitialize | generation_c.rs:133-166 | after `initialize` the allocator returns index 0, named `rbx` |
| Generation.LabelCounter.constructor | generation_c.rs:11 | the counter starts at 0 |
| Generation.LabelCounter.LabelCreate | generation_c.rs:170-175 | the counter moves on by one and the new value is returned; at the u32 maximum it panics |
| Generation.TwoLabels | generation_c.rs:170-175 | successive labels are positive and strictly increasing; below the u32 maximum they are the old counter plus one and plus two |
| Generation.LabelName | generation_c.rs:177-179 | `.L` followed by decimal digits that read back as the label index |
| Generation.LabelNameInjective | generation_c.rs:177-179 | distinct label indices give distinct names |
| Generation.MagnitudeDivision | generation_c.rs:108-110 | quotient and remainder of the magnitudes, with the quotient at most the dividend |
| Generation.TruncDivSpec | generation_c.rs:108-110 | Rust division truncates: the remainder is smaller than the divisor and has the dividend's sign, and the quotient is no larger than the dividend |
| Generation.ApplyOperation | generation_c.rs:93-116 | another operator gives empty text; for `+ - * /` the result is text exactly when both operands parse as i32, the divisor is non-zero and the exact result fits i32, and that text parses back to the exact result |
| Generation.ApplyOperationOfNumbers | generation_c.rs:93-116 | folding the texts of two i32 values gives the text of their result |
| Generation.ApplyOperationPanics | generation_c.rs:93-116 | it panics exactly on division by zero or i32 overflow |
| Generation.ApplyOperationExamples | generation_c.rs:93-116 | `-7 / 2` is `-3`; `7 / 0` and `x + 1` panic; `%` folds to empty text |
| Generation.AsI32 | generation_c.rs:68-69 | `as i32` gives an i32, and leaves values up to the i32 maximum unchanged |
| Generation.Then | generation_c.rs:31-90 | text followed by text; a panic in either is a panic |
| Generation.ThenAssociative | generation_c.rs:31-90 | emitting in sequence is associative |
| Generation.GenerateStartStub | generation_c.rs:27-29 | appends `global _start` and the `_start:` label |
| Generation.GenerateExitStub | generation_c.rs:118-121 | appends `mov rax, 60` and `syscall` |
| Generation.GenerateFromTree | generation_c.rs:31-84 | appends exactly the reference emission `EmitNode` of the subtree, or panics as it does |
| Generation.GenerateReturn | generation_c.rs:63-77 | appends exactly the return statement's reference text |
| Generation.GenerateChildren | generation_c.rs:86-90 | the loop appends the children's emissions in order and stops at the first panic |
| Generation.PanicsPersist | generation_c.rs:86-90 | once a child panics, the whole child list panics |
| Generation.GenerateCode | generation_c.rs:13-25 | text exactly when the tree's emission is text, namely the entry stub, the tree's text and the exit stub |
| Generation.ProgramFraming | generation_c.rs:13-25 | a generated program starts with the entry stub and ends with the exit call |
| Generation.SilentEmitsNothing | generation_c.rs:31-84 | a tree without function declarations, expressions, declarations or return statements emits nothing |
| Generation.SilentChildrenEmitNothing | generation_c.rs:86-90 | the same for a list of such children |
| Generation.FunctionDeclarationOpensFrame | generation_c.rs:33-37 | a function declaration's text starts with `push rbp; mov rbp, rsp` |
| Generation.ReturnOfIntVariable | generation_c.rs:65-71 | returning an `int` that parse_c.rs's `insert` placed in slot `k` reads `[rbp-(k+1)*8]` |
| Generation.ReturnOfConstant | generation_c.rs:73-76 | returning a constant moves its text into `rdi` |
| Generation.VarDeclPushesWhenBound | generation_c.rs:49-62 | a declaration pushes its own value exactly when its name is bound |
| Findings.BooleanLiteralRejected | parse_c.rs:850-889 | `false ;` as lexed: the Monolithic operand rejects it and the Split operand panics on the unbound name `false` |
| Findings.BooleanLiteralAccepted | parse_c.rs:850-889 | `false ;` lexed with the boolean literals as keywords: both snapshots accept it with "terminal" 0 |
| Findings.FactorRejectMovesCursor | parse_c.rs:661-678 | on `x 5` the factor rejects with the cursor at 2 |
| Findings.FactorRejectRewound | parse_c.rs:661-678 | on `x 5` the rewinding factor rejects with the cursor back at 0 |

## Left out

- The file I/O of `generate_code` (`fs::write`) and the source file reading in main.rs: `GenerateCode` returns the text that would be written.
- `print_tokens`: console output only.
- main.rs, parse.rs, generation.rs, ir_gen_c.rs and token.rs are not part of this model; they are drivers and older versions.
- Unicode: `is_alphabetic`, `[[:alpha:]]` and `\s` stand for their ASCII subsets, and the regex engine is not modelled.
- The u32 width of `ordinal`, `addr`, `size` and the token cursor: these are unbounded naturals. Wrap-around and overflow panics of `ordinal * 8`, `ordinal += 1` and the cursor increment are not modelled.
- Parser.Parser.PrevTokenIndex: the u32 underflow panic at cursor 0 is a precondition, not a modelled panic.
- Lexer.IsIdentifier: the `unwrap` panic on empty text is a precondition, not a modelled panic; each parser call site models that panic itself before the call.
- FlatSymbols.STManager.ModifyRegister: the map-index panic on an unbound name is a precondition (the name is in the table), not a modelled panic; no core file calls it.
- SymbolTables.SymbolTable.ModifyRegister: the map-index panic on an unbound name is a precondition (the name is in the table), not a modelled panic; no core file calls it.
- SymbolTables.STManager.ScopeEnter: the `assert!` panic when a frame that shares the ordinal is asked for on an empty stack is a precondition (a new frame, or a non-empty stack), not a modelled panic.
- Parser.Parser.ParseArithFactorRewinding: the rewinding correction is given for the factor only; the other productions that consume tokens before failing (the Split declaration, which keeps its binding, and the Monolithic for-statement) keep their as-written behaviour.
- SymbolTables.STManager.ScopeBind, SymbolTables.STManager.ScopeLookup, SymbolTables.STManager.ScopeLookupCurrent: the `len() - 1` underflow on an empty stack is a precondition, not a modelled panic.
- Generation.RegisterManager.RegisterFree and Generation.RegisterManager.RegisterName: an index past the end panics in the source; here it is a precondition.
- The `register` field of parse_c.rs's `Node`: nothing in the core reads it.
- The parse dispatch is split into group dispatchers, and some long productions are split into helper methods. This keeps each proof small. The helpers are parts of the source production they are cited against.
- Parser.Parser.ParseVarDeclMonolithic: the exact new properties are stated only for a node that starts with no children, the only way the source calls it.
- Parser.Parser.ParseDeclTailMonolithic: the exact new properties are stated only for a node that starts with no children, the only way the source calls it.
- Parser.Parser.ParseVarDeclSplit: the exact new properties are stated only for a node that starts with no children, the only way the source calls it.
- Parser.Parser.ParseDeclRestSplit: the exact new properties are stated only for a node that starts with no children, the only way the source calls it.
- Parser.Parser.ParseArithFactor: the exact new properties are stated only for a node that starts with no children, the only way the source calls it.
- Parser.Parser.ParseBoolSubexpr: the exact new properties are stated only for a node that starts with no children, the only way the source calls it.
- Parser.Parser.ParseBoolSubterm: the exact new properties are stated only for a node that starts with no children, the only way the source calls it.
- Parser.Parser.ParseBoolSubfactor: the exact new properties are stated only for a node that starts with no children, the only way the source calls it.
- Parser.Parser.ParseControl: only progress and the preserved invariant are stated at this dispatcher; the tree shapes are stated by the productions it calls.
- Parser.Parser.ParseBool: only progress and the preserved invariant are stated at this dispatcher; the tree shapes are stated by the productions it calls.
- Parser.Parser.ParseDeclInitMonolithic: the two ways the initialised declaration can end are stated as "panics, or accepts with the five children"; which one happens depends on the expression's tokens. Its exact properties are stated only for a node that starts with no children.
- Parser.Parser.ParseAssignMonolithic: the exact new properties are stated only for a node that starts with no children, the only way the source calls it.
- Generation.RegisterManager.RegisterName: its contract only says the name belongs to the pool; the concrete names after `initialize` are stated by Generation.AllocAfterInitialize.
- Generation.ApplyOperation: a release build, where i32 overflow wraps instead of panicking, is not modelled.
- Generation.LabelCounter.LabelCreate: a release build, where the u32 `+= 1` wraps to 0 instead of panicking, is not modelled; the debug-build panic is.
- The generator's `offset += size`: both values go through `as i32` and the i32 addition panics on overflow, as modelled by `AsI32` and `ReturnEmission`; no other i32 arithmetic of the generator exists.

## Findings

| source | as written | input that shows it | evidently intended | confidence | as-written member | corrected member |
|---|---|---|---|---|---|---|
| generation_c.rs:145-158 | `register_alloc` returns the first free register but never sets its `in_use`, so every allocation hands out the same register | two calls in a row on a freshly initialised pool both return index 0 (`rbx`) | the allocated register is marked in use, so the next call returns a different one | medium, not executed | Generation.AllocTwice | Generation.AllocTwiceMarking |
| parse_c.rs:850-889, token_c.rs:75-86 | `parse_bool_operand` turns the keyword `false` into "terminal" 0 and any other keyword into 1, but `is_keyword` does not list `true` or `false`, so both lex as identifiers and never reach that branch | the tokens of `false ;`: the Monolithic snapshot rejects the operand, and the Split snapshot panics because `false` is not bound | `true` and `false` are recognised as boolean literals and give "terminal" 1 and 0 | high, not executed | Findings.BooleanLiteralRejected | Findings.BooleanLiteralAccepted |
| parse_c.rs:661-678 | `parse_arith_factor` tries an identifier and then a constant and leaves behind whatever both attempts consumed, so a rejected factor can have moved the cursor; elsewhere the parser rewinds a failed attempt itself (`prev_token_index` at expression_c.rs:379 and expression_c.rs:498) | `x 5`: the identifier attempt takes `x`, the constant attempt takes `5`, and the factor rejects with the cursor at 2 | a failed production leaves the cursor where it found it | medium, not executed | Findings.FactorRejectMovesCursor | Findings.FactorRejectRewound |
