/** The tokenizer of token_c.rs: token classes, the classifiers, the
    construction of a typed token from its text, and the character-by-character
    splitter `lex_file`.

    The regular expressions and Rust's Unicode character classes are replaced
    by their ASCII counterparts: `\s` by `IsWhitespaceChar`, `[[:alpha:]]` and
    `char::is_alphabetic` by `IsAlpha`, `[0-9]` by `IsDigit`. */
module Lexer {

  datatype TokenType = Identifier | Separator | Keyword | Primitive | Operator | Constant | Special | Default

  datatype Token = Token(tokenType: TokenType, val: string)

  const Operators: set<string> :=
    {"!", "!=", "==", "&&", "||", "<", ">", "<=", ">=", "+", "+=", "-", "-=", "=", "*", "/"}
  const Separators: set<string> := {"(", ")", "{", "}", ";"}
  const Keywords: set<string> := {"if", "else if", "else", "while", "for", "return"}
  const Primitives: set<string> := {"int", "float", "bool", "char"}

  // ---------------------------------------------------------------------------
  // Character classes

  /** ASCII white space, the part of `\s` this model covers. */
  predicate IsWhitespaceChar(c: char) {
    c == ' ' || c == '\t' || c == '\n' || c == '\r' || c == '\U{000B}' || c == '\U{000C}'
  }

  predicate IsAlpha(c: char) {
    ('a' <= c <= 'z') || ('A' <= c <= 'Z')
  }

  predicate IsDigit(c: char) {
    '0' <= c <= '9'
  }

  predicate ContainsAlpha(s: string) {
    exists i :: 0 <= i < |s| && IsAlpha(s[i])
  }

  predicate ContainsDigit(s: string) {
    exists i :: 0 <= i < |s| && IsDigit(s[i])
  }

  // ---------------------------------------------------------------------------
  // Classifiers

  /** `is_whitespace`: the unanchored regex `\s+` matches somewhere in the input. */
  function IsWhitespace(input: string): (b: bool)
    ensures b <==> exists i :: 0 <= i < |input| && IsWhitespaceChar(input[i])
  {
    if input == [] then false
    else IsWhitespaceChar(input[0]) || IsWhitespace(input[1..])
  }

  function IsOperator(input: string): (b: bool)
    ensures b <==> input in Operators
  {
    input == "!" || input == "!=" || input == "==" || input == "&&" ||
    input == "||" || input == "<" || input == ">" || input == "<=" ||
    input == ">=" || input == "+" || input == "+=" || input == "-" ||
    input == "-=" || input == "=" || input == "*" || input == "/"
  }

  /** The first character decides; on the empty string the source panics
      (`nth(0).unwrap()`), which is this function's precondition. */
  function IsIdentifier(input: string): (b: bool)
    requires |input| > 0
    ensures b <==> IsAlpha(input[0])
    ensures b ==> ContainsAlpha(input)
  {
    IsAlpha(input[0])
  }

  function IsSeparator(input: string): (b: bool)
    ensures b <==> input in Separators
  {
    input == "(" || input == ")" || input == "{" || input == "}" || input == ";"
  }

  function IsKeyword(input: string): (b: bool)
    ensures b <==> input in Keywords
  {
    input == "if" || input == "else if" || input == "else" ||
    input == "while" || input == "for" || input == "return"
  }

  function IsPrimitive(input: string): (b: bool)
    ensures b <==> input in Primitives
  {
    input == "int" || input == "float" || input == "bool" || input == "char"
  }

  predicate InFixedClass(input: string) {
    IsSeparator(input) || IsKeyword(input) || IsPrimitive(input) || IsOperator(input)
  }

  /** The token type is the first class that matches, in the order separator,
      keyword, primitive, operator, identifier (some letter anywhere),
      constant (some digit anywhere), and `Default` otherwise. */
  function ConstructToken(input: string): (t: Token)
    ensures t.val == input
    ensures t.tokenType == Separator <==> IsSeparator(input)
    ensures t.tokenType == Keyword <==> !IsSeparator(input) && IsKeyword(input)
    ensures t.tokenType == Primitive <==> !IsSeparator(input) && !IsKeyword(input) && IsPrimitive(input)
    ensures t.tokenType == Operator <==>
              !IsSeparator(input) && !IsKeyword(input) && !IsPrimitive(input) && IsOperator(input)
    ensures t.tokenType == Identifier <==> !InFixedClass(input) && ContainsAlpha(input)
    ensures t.tokenType == Constant <==> !InFixedClass(input) && !ContainsAlpha(input) && ContainsDigit(input)
    ensures t.tokenType == Default <==> !InFixedClass(input) && !ContainsAlpha(input) && !ContainsDigit(input)
    ensures t.tokenType != Special
  {
    var tokenType :=
      if IsSeparator(input) then Separator
      else if IsKeyword(input) then Keyword
      else if IsPrimitive(input) then Primitive
      else if IsOperator(input) then Operator
      else if ContainsAlpha(input) then Identifier
      else if ContainsDigit(input) then Constant
      else Default;
    Token(tokenType, input)
  }

  /** The boolean literals, which the parser's operand rule reads as 0 and 1. */
  const BoolLiterals: set<string> := {"true", "false"}

  /** `construct_token` with `true` and `false` typed as keywords, the only
      token type the boolean operand rule of parse_c.rs accepts. */
  function ConstructTokenWithLiterals(input: string): (t: Token)
    ensures t.val == input
    ensures t.tokenType == Keyword <==> IsKeyword(input) || input in BoolLiterals
    ensures input !in BoolLiterals ==> t == ConstructToken(input)
  {
    if input in BoolLiterals then Token(Keyword, input) else ConstructToken(input)
  }

  /** No string belongs to two of the four fixed classes, so the order in
      which `construct_token` tries them only matters for the open classes. */
  lemma FixedClassesDisjoint(s: string)
    ensures !(IsOperator(s) && IsSeparator(s))
    ensures !(IsOperator(s) && IsKeyword(s))
    ensures !(IsOperator(s) && IsPrimitive(s))
    ensures !(IsSeparator(s) && IsKeyword(s))
    ensures !(IsSeparator(s) && IsPrimitive(s))
    ensures !(IsKeyword(s) && IsPrimitive(s))
  {
    FirstChars(s);
  }

  /** The first characters and lengths the fixed classes allow. */
  lemma FirstChars(s: string)
    ensures IsOperator(s) ==> 1 <= |s| <= 2 && s[0] in "!=&|<>+-*/"
    ensures IsSeparator(s) ==> |s| == 1 && s[0] in "(){};"
    ensures IsKeyword(s) ==> |s| >= 2 && s[0] in "iewfr"
    ensures IsPrimitive(s) ==> |s| >= 3 && s[0] in "ifbc"
  {
  }

  /** Each fixed class is mapped to its own token type. */
  lemma ConstructTokenOfFixedClass(s: string)
    ensures IsOperator(s) ==> ConstructToken(s).tokenType == Operator
    ensures IsSeparator(s) ==> ConstructToken(s).tokenType == Separator
    ensures IsKeyword(s) ==> ConstructToken(s).tokenType == Keyword
    ensures IsPrimitive(s) ==> ConstructToken(s).tokenType == Primitive
  {
    FixedClassesDisjoint(s);
  }

  /** Words the parser tests for but that are not keywords come out as
      identifiers: `elif` (tested by the elif production), `true` and
      `false` (tested by the boolean operand production). */
  lemma NonKeywordWords()
    ensures ConstructToken("elif").tokenType == Identifier
    ensures ConstructToken("true").tokenType == Identifier
    ensures ConstructToken("false").tokenType == Identifier
  {
    FirstChars("elif");
    FirstChars("true");
    FirstChars("false");
    assert "elif"[3] != "else"[3];
    assert IsAlpha("elif"[0]) && IsAlpha("true"[0]) && IsAlpha("false"[0]);
  }

  // ---------------------------------------------------------------------------
  // lex_file

  /** A character that `lex_file` always emits as a token of its own. */
  predicate IsSpecialChar(c: char) {
    IsOperator([c]) || IsSeparator([c])
  }

  /** The state of `lex_file`'s loop: the tokens pushed so far and the
      pending run of ordinary characters (`current_token_val`). */
  datatype LexState = LexState(tokens: seq<Token>, pending: string)

  /** The tokens with the pending run pushed, when there is one. */
  function Flush(st: LexState): seq<Token> {
    if st.pending != "" then st.tokens + [ConstructToken(st.pending)] else st.tokens
  }

  /** One iteration of `lex_file`'s loop. */
  function Step(st: LexState, c: char): LexState {
    if IsWhitespace([c]) then LexState(Flush(st), "")
    else if IsOperator([c]) || IsSeparator([c]) then LexState(Flush(st) + [ConstructToken([c])], "")
    else LexState(st.tokens, st.pending + [c])
  }

  /** The loop run over every character of `input`, in order. */
  function Run(input: string): LexState
    decreases |input|
  {
    if input == [] then LexState([], "")
    else Step(Run(input[..|input| - 1]), input[|input| - 1])
  }

  /** `lex_file`: the pending run left when the loop ends is NOT pushed. */
  method LexFile(input: string) returns (tokens: seq<Token>)
    ensures tokens == Run(input).tokens
  {
    tokens := [];
    var current := "";
    for i := 0 to |input|
      invariant LexState(tokens, current) == Run(input[..i])
    {
      var c := input[i];
      assert input[..i + 1][..i] == input[..i];
      if IsWhitespace([c]) {
        if current != "" {
          tokens := tokens + [ConstructToken(current)];
        }
        current := "";
        continue;
      }
      if IsOperator([c]) || IsSeparator([c]) {
        if current != "" {
          tokens := tokens + [ConstructToken(current)];
        }
        tokens := tokens + [ConstructToken([c])];
        current := "";
        continue;
      }
      current := current + [c];
    }
    assert input[..|input|] == input;
  }

  // ---------------------------------------------------------------------------
  // Properties of lex_file

  /** A run of characters that are neither white space nor special. */
  predicate Plain(s: string) {
    forall i :: 0 <= i < |s| ==> !IsWhitespaceChar(s[i]) && !IsSpecialChar(s[i])
  }

  /** What every token of `lex_file` looks like: typed by `construct_token`
      from its own text, and either one special character or a non-empty
      plain run; so it is never empty and never holds white space. */
  predicate WellFormed(t: Token) {
    && t == ConstructToken(t.val)
    && ((|t.val| == 1 && IsSpecialChar(t.val[0])) || (t.val != "" && Plain(t.val)))
  }

  lemma WellFormedHasNoWhitespace(t: Token)
    requires WellFormed(t)
    ensures t.val != ""
    ensures forall i :: 0 <= i < |t.val| ==> !IsWhitespaceChar(t.val[i])
  {
    if |t.val| == 1 && IsSpecialChar(t.val[0]) {
      assert !IsWhitespaceChar(t.val[0]);
    }
  }

  lemma {:induction false} RunWellFormed(input: string)
    ensures forall t :: t in Run(input).tokens ==> WellFormed(t)
    ensures Plain(Run(input).pending)
    decreases |input|
  {
    if input != [] {
      var prefix := input[..|input| - 1];
      var c := input[|input| - 1];
      RunWellFormed(prefix);
      var st := Run(prefix);
      assert Run(input) == Step(st, c);
      forall t | t in Flush(st) ensures WellFormed(t) {
        if t !in st.tokens {
          assert t == ConstructToken(st.pending);
        }
      }
      if !IsWhitespace([c]) && !(IsOperator([c]) || IsSeparator([c])) {
        assert !IsWhitespaceChar(c);
        assert Plain(st.pending + [c]);
      }
    }
  }

  /** A token of `lex_file` that contains an operator or separator character
      is exactly that one character. */
  lemma {:induction false} SpecialCharsStandAlone(input: string, t: Token, i: nat)
    requires t in Run(input).tokens
    requires i < |t.val| && IsSpecialChar(t.val[i])
    ensures t.val == [t.val[i]]
  {
    RunWellFormed(input);
  }

  /** Hence the two-character operators built with `=` never appear as tokens. */
  lemma {:induction false} NoCompoundOperators(input: string, t: Token)
    requires t in Run(input).tokens
    ensures t.val !in {"==", "!=", "<=", ">=", "+=", "-="}
  {
    RunWellFormed(input);
    if t.val in {"==", "!=", "<=", ">=", "+=", "-="} {
      assert IsSpecialChar(t.val[1]);
      SpecialCharsStandAlone(input, t, 1);
      assert false;
    }
  }

  /** The input with its white space removed. */
  function RemoveWhitespace(s: string): string
    decreases |s|
  {
    if s == [] then []
    else RemoveWhitespace(s[..|s| - 1]) + (if IsWhitespaceChar(s[|s| - 1]) then [] else [s[|s| - 1]])
  }

  /** The texts of the tokens, concatenated in order. */
  function Concat(ts: seq<Token>): string
    decreases |ts|
  {
    if ts == [] then [] else Concat(ts[..|ts| - 1]) + ts[|ts| - 1].val
  }

  lemma ConcatAppend(ts: seq<Token>, t: Token)
    ensures Concat(ts + [t]) == Concat(ts) + t.val
  {
    assert (ts + [t])[..|ts|] == ts;
  }

  lemma ConcatFlush(st: LexState)
    ensures Concat(Flush(st)) == Concat(st.tokens) + st.pending
  {
    if st.pending != "" {
      ConcatAppend(st.tokens, ConstructToken(st.pending));
    }
  }

  /** Nothing but white space is lost or reordered: the token texts followed
      by the pending run spell the input without its white space. */
  lemma {:induction false} RunConcat(input: string)
    ensures Concat(Run(input).tokens) + Run(input).pending == RemoveWhitespace(input)
    decreases |input|
  {
    if input != [] {
      var prefix := input[..|input| - 1];
      var c := input[|input| - 1];
      RunConcat(prefix);
      var st := Run(prefix);
      ConcatFlush(st);
      if IsWhitespace([c]) {
        assert IsWhitespaceChar(c);
      } else if IsOperator([c]) || IsSeparator([c]) {
        ConcatAppend(Flush(st), ConstructToken([c]));
        assert !IsWhitespaceChar(c);
      } else {
        assert !IsWhitespaceChar(c);
      }
    }
  }

  /** The pending run is the longest plain suffix of the input: it is a
      suffix, it is plain, and it is the whole input or follows a white-space
      or special character. */
  lemma {:induction false} PendingIsFinalRun(input: string)
    ensures |Run(input).pending| <= |input|
    ensures Run(input).pending == input[|input| - |Run(input).pending|..]
    ensures Plain(Run(input).pending)
    ensures |Run(input).pending| < |input| ==>
              var k := |input| - |Run(input).pending| - 1;
              IsWhitespaceChar(input[k]) || IsSpecialChar(input[k])
    decreases |input|
  {
    RunWellFormed(input);
    if input != [] {
      var prefix := input[..|input| - 1];
      var c := input[|input| - 1];
      PendingIsFinalRun(prefix);
      var st := Run(prefix);
      if IsWhitespace([c]) {
        assert IsWhitespaceChar(c);
      } else if IsOperator([c]) || IsSeparator([c]) {
        assert IsSpecialChar(c);
      } else {
        assert input[|input| - |st.pending| - 1..] == prefix[|prefix| - |st.pending|..] + [c];
      }
    }
  }

  /** So `lex_file` loses exactly that final run: an input that ends in white
      space or a special character is split completely, while `int x` yields
      only the token `int`. */
  lemma {:induction false} LexFileCompleteWhenTerminated(input: string)
    requires input != []
    requires IsWhitespaceChar(input[|input| - 1]) || IsSpecialChar(input[|input| - 1])
    ensures Concat(Run(input).tokens) == RemoveWhitespace(input)
  {
    RunConcat(input);
    PendingIsFinalRun(input);
    if Run(input).pending != "" {
      assert false;
    }
  }

  lemma RunSnoc(s: string, c: char)
    ensures Run(s + [c]) == Step(Run(s), c)
  {
    assert (s + [c])[..|s|] == s;
  }

  lemma StepOrdinary(st: LexState, c: char)
    requires IsAlpha(c)
    ensures Step(st, c) == LexState(st.tokens, st.pending + [c])
  {
    assert !IsWhitespace([c]);
    assert [c] !in Operators && [c] !in Separators;
  }

  /** An input without white space or special characters yields no token
      at all: the whole input stays pending and is dropped. */
  lemma {:induction false} RunOfPlain(s: string)
    requires Plain(s)
    ensures Run(s) == LexState([], s)
    decreases |s|
  {
    if s != [] {
      var prefix := s[..|s| - 1];
      var c := s[|s| - 1];
      assert Plain(prefix) by {
        forall i | 0 <= i < |prefix| ensures !IsWhitespaceChar(prefix[i]) && !IsSpecialChar(prefix[i]) {
          assert prefix[i] == s[i];
        }
      }
      RunOfPlain(prefix);
      assert !IsWhitespaceChar(c) && !IsSpecialChar(c);
      assert prefix + [c] == s;
    }
  }

  lemma RunOfInt()
    ensures Run("int") == LexState([], "int")
  {
    assert Plain("int") by {
      forall i | 0 <= i < 3 ensures !IsWhitespaceChar("int"[i]) && !IsSpecialChar("int"[i]) {
        assert IsAlpha("int"[i]);
        assert ["int"[i]] !in Operators && ["int"[i]] !in Separators;
      }
    }
    RunOfPlain("int");
  }

  lemma LexFileDropsFinalRun()
    ensures Run("int x").tokens == [Token(Primitive, "int")]
    ensures Run("int x").pending == "x"
  {
    RunOfInt();
    RunSnoc("int", ' ');
    assert "int" + [' '] == "int ";
    assert IsWhitespace([' ']);
    assert IsPrimitive("int");
    assert Run("int ") == LexState([Token(Primitive, "int")], "");
    RunSnoc("int ", 'x');
    StepOrdinary(Run("int "), 'x');
    assert "int " + ['x'] == "int x";
  }
}
