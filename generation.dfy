/** The x86-64 assembly generator of generation_c.rs: a walk over the parse
    tree that writes a program text, the constant folding of `apply_operation`,
    the register pool and the label counter. The assembly file itself is not
    written: `GenerateCode` returns the text `fs::write` would receive. */
module Generation {
  import opened Common
  import opened Syntax
  import FlatSymbols
  import opened Decimal
  import Lexer

  // ---------------------------------------------------------------------------
  // Registers

  datatype Register = Register(name: string, inUse: bool)

  /** The registers `initialize` hardcodes, in the order it pushes them. */
  const RegisterNames: seq<string> := ["rbx", "r10", "r11", "r12", "r13", "r14", "r15"]

  /** `RegisterManager`: the pool of general purpose registers. */
  class RegisterManager {
    var registers: seq<Register>

    /** `initialize`: all seven registers, none of them in use. */
    method Initialize()
      modifies this
      ensures |registers| == |RegisterNames|
      ensures forall i :: 0 <= i < |registers| ==> registers[i] == Register(RegisterNames[i], false)
    {
      registers := [];
      registers := registers + [Register("rbx", false)];
      registers := registers + [Register("r10", false)];
      registers := registers + [Register("r11", false)];
      registers := registers + [Register("r12", false)];
      registers := registers + [Register("r13", false)];
      registers := registers + [Register("r14", false)];
      registers := registers + [Register("r15", false)];
    }

    /** `register_alloc`: the index of the first register not in use, or
        `None` when every register is in use. It marks nothing as in use. */
    method RegisterAlloc() returns (r: Option<nat>)
      ensures r.Some? ==> r.value < |registers| && !registers[r.value].inUse
      ensures r.Some? ==> forall j :: 0 <= j < r.value ==> registers[j].inUse
      ensures r.None? <==> forall j :: 0 <= j < |registers| ==> registers[j].inUse
    {
      var index := 0;
      while index < |registers|
        invariant index <= |registers|
        invariant forall j :: 0 <= j < index ==> registers[j].inUse
      {
        if !registers[index].inUse {
          return Some(index);
        }
        index := index + 1;
      }
      return None;
    }

    /** The allocator with the step `register_alloc` leaves out: the register
        it hands out is marked as in use, and nothing else changes. */
    method RegisterAllocMarking() returns (r: Option<nat>)
      modifies this
      ensures r.Some? ==> r.value < |old(registers)| && !old(registers)[r.value].inUse
      ensures r.Some? ==> forall j :: 0 <= j < r.value ==> old(registers)[j].inUse
      ensures r.None? <==> forall j :: 0 <= j < |old(registers)| ==> old(registers)[j].inUse
      ensures r.Some? ==> registers == old(registers)[r.value := old(registers)[r.value].(inUse := true)]
      ensures r.None? ==> registers == old(registers)
    {
      r := RegisterAlloc();
      if r.Some? {
        registers := registers[r.value := registers[r.value].(inUse := true)];
      }
    }

    /** `register_free`: the register at `index` is no longer in use; an index
        past the end panics, which the precondition excludes. */
    method RegisterFree(index: nat)
      requires index < |registers|
      modifies this
      ensures registers == old(registers)[index := old(registers)[index].(inUse := false)]
    {
      registers := registers[index := registers[index].(inUse := false)];
    }

    /** `register_name`: the name of the register at `index`. */
    function RegisterName(index: nat): (name: string)
      requires index < |registers|
      reads this
      ensures exists i :: 0 <= i < |registers| && registers[i].name == name
    {
      registers[index].name
    }
  }

  /** Two allocations in a row, as `register_alloc` is written: the second
      hands out the same register as the first. */
  method AllocTwice(m: RegisterManager) returns (first: Option<nat>, second: Option<nat>)
    ensures first == second
  {
    first := m.RegisterAlloc();
    second := m.RegisterAlloc();
  }

  /** Two allocations in a row with the marking allocator: two different
      registers, and the second is never one the first saw free before it. */
  method AllocTwiceMarking(m: RegisterManager) returns (first: Option<nat>, second: Option<nat>)
    modifies m
    ensures first.Some? && second.Some? ==> first.value != second.value
    ensures first.None? ==> second.None?
  {
    first := m.RegisterAllocMarking();
    second := m.RegisterAllocMarking();
  }

  /** After `initialize` the allocator finds a register, and it is `rbx`. */
  method AllocAfterInitialize(m: RegisterManager) returns (r: Option<nat>, name: string)
    modifies m
    ensures r == Some(0) && name == "rbx"
  {
    m.Initialize();
    r := m.RegisterAlloc();
    assert !m.registers[0].inUse;
    name := m.RegisterName(r.value);
  }

  // ---------------------------------------------------------------------------
  // Labels

  const U32Max: int := 0xFFFF_FFFF

  /** The counter `CURRENT_LABEL_INDEX`. */
  class LabelCounter {
    var current: nat

    /** The static starts at 0. */
    constructor ()
      ensures current == 0
    {
      current := 0;
    }

    /** `label_create`: the counter moves on by one and its new value is the
        label; at the u32 maximum the increment overflows and panics. */
    method LabelCreate() returns (index: Outcome<nat>)
      modifies this
      ensures old(current) < U32Max ==> current == old(current) + 1 && index == Returns(current)
      ensures old(current) >= U32Max ==> index == Panics && current == old(current)
    {
      if current >= U32Max {
        return Panics;
      }
      current := current + 1;
      index := Returns(current);
    }
  }

  /** Labels created one after the other are distinct and increasing. */
  method TwoLabels(c: LabelCounter) returns (first: Outcome<nat>, second: Outcome<nat>)
    modifies c
    ensures first.Returns? && second.Returns? ==> 0 < first.value < second.value
    ensures old(c.current) + 2 <= U32Max ==>
              && first.Returns? && second.Returns?
              && first.value == old(c.current) + 1 && second.value == old(c.current) + 2
  {
    first := c.LabelCreate();
    second := c.LabelCreate();
  }

  /** `label_name`: `.L` followed by the decimal index. */
  function LabelName(index: nat): (s: string)
    ensures |s| >= 3 && s[..2] == ".L"
    ensures Decimal.AllDigits(s[2..]) && Decimal.DigitsValue(s[2..]) == index
  {
    var s := ".L" + NatToString(index);
    assert s[2..] == NatToString(index);
    Decimal.DigitsValueOfNatToString(index);
    s
  }

  /** Distinct label indices give distinct label names. */
  lemma LabelNameInjective(i: nat, j: nat)
    requires LabelName(i) == LabelName(j)
    ensures i == j
  {
    assert LabelName(i)[2..] == NatToString(i);
    assert LabelName(j)[2..] == NatToString(j);
    NatToStringInjective(i, j);
  }

  // ---------------------------------------------------------------------------
  // Constant folding

  function Abs(x: int): nat {
    if x < 0 then -x else x
  }

  /** Rust's `/` on integers: the quotient rounded toward zero. */
  function TruncDiv(x: int, y: int): int
    requires y != 0
  {
    var q := Abs(x) / Abs(y);
    if (x < 0) == (y < 0) then q else -q
  }

  /** The Euclidean quotient and remainder of the magnitudes. */
  lemma MagnitudeDivision(a: nat, b: nat)
    requires b > 0
    ensures a == (a / b) * b + a % b && 0 <= a % b < b
    ensures 0 <= a / b <= a
  {
    var q := a / b;
    assert q >= 0;
    ProductAtLeastFactor(q, b);
  }

  lemma {:induction false} ProductAtLeastFactor(q: nat, b: nat)
    requires b > 0
    ensures q <= q * b
  {
    if q > 0 {
      ProductAtLeastFactor(q - 1, b);
      assert q * b == (q - 1) * b + b;
    }
  }

  /** Truncating division: the remainder is smaller than the divisor and takes
      the sign of the dividend, and the quotient is never further from zero than
      the dividend. */
  lemma TruncDivSpec(x: int, y: int)
    requires y != 0
    ensures Abs(x - TruncDiv(x, y) * y) < Abs(y)
    ensures x - TruncDiv(x, y) * y == 0 || ((x - TruncDiv(x, y) * y < 0) == (x < 0))
    ensures Abs(TruncDiv(x, y)) <= Abs(x)
  {
    var a: int, b: int := Abs(x), Abs(y);
    var q: int, m: int := a / b, a % b;
    MagnitudeDivision(a, b);
    NegationOverProduct(q, b);
    var t := TruncDiv(x, y);
    if x >= 0 && y > 0 {
      assert t == q && y == b;
    } else if x >= 0 {
      assert t == -q && y == -b;
      assert t * y == q * b;
    } else if y > 0 {
      assert t == -q && y == b;
      assert t * y == -(q * b);
    } else {
      assert t == q && y == -b;
      assert t * y == -(q * b);
    }
  }

  lemma NegationOverProduct(q: int, b: int)
    ensures (-q) * (-b) == q * b
    ensures (-q) * b == -(q * b)
    ensures q * (-b) == -(q * b)
  {
  }

  predicate IsArithOperator(op: string) {
    op == "+" || op == "-" || op == "*" || op == "/"
  }

  /** The exact value of `x op y` for one of the four operators. */
  function Arith(x: int, op: string, y: int): int
    requires IsArithOperator(op)
    requires op == "/" ==> y != 0
  {
    if op == "+" then x + y
    else if op == "-" then x - y
    else if op == "*" then x * y
    else TruncDiv(x, y)
  }

  /** `apply_operation`: folds `operand1 op operand2` into its decimal text.
      Both operands must parse as i32 (`unwrap`), and the i32 operation panics
      on overflow and on a zero divisor, as in a debug build; any other
      operator folds to the empty text. */
  function ApplyOperation(operand1: string, op: string, operand2: string): (r: Outcome<string>)
    ensures !IsArithOperator(op) ==> r == Returns("")
    ensures IsArithOperator(op) ==>
      (r.Returns? <==>
        && ParseI32(operand1).Some? && ParseI32(operand2).Some?
        && (op == "/" ==> ParseI32(operand2).value != 0)
        && InI32(Arith(ParseI32(operand1).value, op, ParseI32(operand2).value)))
    ensures IsArithOperator(op) && r.Returns? ==>
      ParseI32(r.value) == Some(Arith(ParseI32(operand1).value, op, ParseI32(operand2).value))
  {
    if !IsArithOperator(op) then Returns("")
    else
      var a := ParseI32(operand1);
      var b := ParseI32(operand2);
      if a.None? || b.None? then Panics
      else if op == "/" && b.value == 0 then Panics
      else
        var v := Arith(a.value, op, b.value);
        if !InI32(v) then Panics
        else
          ParseIntToString(v);
          Returns(IntToString(v))
  }

  /** Folding the texts of two i32 values agrees with the arithmetic on the
      values whenever the result stays in range. */
  lemma ApplyOperationOfNumbers(x: int, op: string, y: int)
    requires InI32(x) && InI32(y) && IsArithOperator(op)
    requires op == "/" ==> y != 0
    requires InI32(Arith(x, op, y))
    ensures ApplyOperation(IntToString(x), op, IntToString(y)) == Returns(IntToString(Arith(x, op, y)))
  {
    ParseIntToString(x);
    ParseIntToString(y);
  }

  /** Folding the texts of two i32 values panics exactly when the operation
      leaves the i32 range or divides by zero. */
  lemma ApplyOperationPanics(x: int, op: string, y: int)
    requires InI32(x) && InI32(y) && IsArithOperator(op)
    ensures ApplyOperation(IntToString(x), op, IntToString(y)).Panics? <==>
      (op == "/" && y == 0) || !InI32(Arith(x, op, y))
  {
    ParseIntToString(x);
    ParseIntToString(y);
  }

  // ---------------------------------------------------------------------------
  // Emission

  const StartStub: string := "global _start\n_start:\n"
  const ExitStub: string := "\tmov rax, 60\n\tsyscall\n"
  const Prologue: string := "\tpush rbp\n\tmov rbp, rsp\n"

  /** A node's `value`: its "value" property, the empty text when it has none. */
  function ValueOf(n: Node): string {
    if "value" in n.properties then n.properties["value"] else ""
  }

  /** `x as i32` for a u32 `x`: its low 32 bits read in two's complement. */
  function AsI32(x: nat): (i: int)
    ensures InI32(i)
    ensures x <= I32Max ==> i == x
  {
    var w := x % 0x1_0000_0000;
    if w >= 0x8000_0000 then w - 0x1_0000_0000 else w
  }

  /** Text `a` followed by text `b`; a panic in either is a panic. */
  function Then(a: Outcome<string>, b: Outcome<string>): (r: Outcome<string>)
    ensures r.Returns? <==> a.Returns? && b.Returns?
  {
    if a.Panics? || b.Panics? then Panics else Returns(a.value + b.value)
  }

  /** The text a return statement adds after its children: the address
      `[rbp-offset]` of a returned variable, offset being the variable's
      `addr + size` in i32 arithmetic, or the returned text itself. */
  function ReturnEmission(n: Node, table: map<string, FlatSymbols.Symbol>): Outcome<string> {
    if |n.children| < 2 then Panics
    else
      var v := ValueOf(n.children[1]);
      if v == "" then Panics
      else if Lexer.IsAlpha(v[0]) then
        if v !in table then Panics
        else
          var offset := AsI32(table[v].addr) + AsI32(table[v].size);
          if !InI32(offset) then Panics
          else Returns("\tmov rdi, [rbp-" + IntToString(offset) + "]\n")
      else Returns("\tmov rdi, " + v + "\n")
  }

  /** The text a variable declaration adds after its children: a push of the
      declaration's own value when its name (the second child) is bound. */
  function VarDeclEmission(n: Node, table: map<string, FlatSymbols.Symbol>): Outcome<string> {
    if |n.children| < 2 then Panics
    else if ValueOf(n.children[1]) in table then Returns("\tpush " + ValueOf(n) + "\n")
    else Returns("")
  }

  /** `generate_from_tree`: the text a subtree emits. A function declaration
      opens a stack frame before its children; an expression, a variable
      declaration and a return statement read their second child after their
      children; every other node emits only its children. */
  function EmitNode(n: Node, table: map<string, FlatSymbols.Symbol>): Outcome<string>
    decreases n, 1, 0
  {
    var children := EmitChildren(n, |n.children|, table);
    if n.kind == FunctionDeclaration then Then(Returns(Prologue), children)
    else if n.kind == Expression then Then(children, if |n.children| < 2 then Panics else Returns(""))
    else if n.kind == VarDecl then Then(children, VarDeclEmission(n, table))
    else if n.kind == ReturnStatement then Then(children, ReturnEmission(n, table))
    else children
  }

  /** `generate_children` on the first `k` children of `n`, in order. */
  function EmitChildren(n: Node, k: nat, table: map<string, FlatSymbols.Symbol>): Outcome<string>
    requires k <= |n.children|
    decreases n, 0, k
  {
    if k == 0 then Returns("")
    else Then(EmitChildren(n, k - 1, table), EmitNode(n.children[k - 1], table))
  }

  lemma ThenAssociative(a: Outcome<string>, b: Outcome<string>, c: Outcome<string>)
    ensures Then(Then(a, b), c) == Then(a, Then(b, c))
  {
    if a.Returns? && b.Returns? && c.Returns? {
      assert (a.value + b.value) + c.value == a.value + (b.value + c.value);
    }
  }

  /** `generate_start_stub`. */
  method GenerateStartStub(program: string) returns (out: string)
    ensures out == program + StartStub
  {
    out := program + "global _start\n_start:\n";
  }

  /** `generate_exit_stub`: the `exit` system call. */
  method GenerateExitStub(program: string) returns (out: string)
    ensures out == program + ExitStub
  {
    out := program + "\tmov rax, 60\n";
    out := out + "\tsyscall\n";
  }

  /** `generate_from_tree`, appending to `program`; `Panics` when the walk
      panics. */
  method GenerateFromTree(program: string, n: Node, symbols: FlatSymbols.STManager) returns (out: Outcome<string>)
    ensures out == Then(Returns(program), EmitNode(n, symbols.table))
    decreases n, 1
  {
    if n.kind == FunctionDeclaration {
      out := GenerateChildren(program + Prologue, n, symbols);
      ThenAssociative(Returns(program), Returns(Prologue), EmitChildren(n, |n.children|, symbols.table));
    } else if n.kind == Expression {
      out := GenerateChildren(program, n, symbols);
      ThenAssociative(Returns(program), EmitChildren(n, |n.children|, symbols.table), if |n.children| < 2 then Panics else Returns(""));
      if out.Returns? {
        assert out.value + "" == out.value;
        if |n.children| < 2 {
          out := Panics;
        }
      }
    } else if n.kind == VarDecl {
      out := GenerateChildren(program, n, symbols);
      ThenAssociative(Returns(program), EmitChildren(n, |n.children|, symbols.table), VarDeclEmission(n, symbols.table));
      if out.Returns? {
        assert out.value + "" == out.value;
        if |n.children| < 2 {
          out := Panics;
        } else if symbols.Query(ValueOf(n.children[1])).Some? {
          out := Returns(out.value + ("\tpush " + ValueOf(n) + "\n"));
        }
      }
    } else if n.kind == ReturnStatement {
      out := GenerateChildren(program, n, symbols);
      ThenAssociative(Returns(program), EmitChildren(n, |n.children|, symbols.table), ReturnEmission(n, symbols.table));
      if out.Returns? {
        out := GenerateReturn(out.value, n, symbols);
      }
    } else {
      out := GenerateChildren(program, n, symbols);
    }
  }

  /** The tail of the return-statement case of `generate_from_tree`. */
  method GenerateReturn(program: string, n: Node, symbols: FlatSymbols.STManager) returns (out: Outcome<string>)
    ensures out == Then(Returns(program), ReturnEmission(n, symbols.table))
  {
    if |n.children| < 2 {
      return Panics;
    }
    var v := ValueOf(n.children[1]);
    if v == "" {
      return Panics;
    }
    if Lexer.IsAlpha(v[0]) {
      var symbol := symbols.Query(v);
      if symbol.None? {
        return Panics;
      }
      var offset := AsI32(symbol.value.addr);
      var size := AsI32(symbol.value.size);
      if !InI32(offset + size) {
        return Panics;
      }
      offset := offset + size;
      out := Returns(program + ("\tmov rdi, [rbp-" + IntToString(offset) + "]\n"));
    } else {
      out := Returns(program + ("\tmov rdi, " + v + "\n"));
    }
  }

  /** `generate_children`: each child's text in turn, appended to `program`;
      the walk stops at the first panic. */
  method GenerateChildren(program: string, n: Node, symbols: FlatSymbols.STManager) returns (out: Outcome<string>)
    ensures out == Then(Returns(program), EmitChildren(n, |n.children|, symbols.table))
    decreases n, 0
  {
    out := Returns(program);
    assert program + "" == program;
    var i := 0;
    while i < |n.children|
      invariant i <= |n.children|
      invariant out == Then(Returns(program), EmitChildren(n, i, symbols.table))
      invariant out.Returns?
    {
      var next := GenerateFromTree(out.value, n.children[i], symbols);
      ThenAssociative(Returns(program), EmitChildren(n, i, symbols.table), EmitNode(n.children[i], symbols.table));
      if next.Panics? {
        ThenPanicsRight(Returns(program), EmitChildren(n, i + 1, symbols.table));
        PanicsPersist(n, i + 1, |n.children|, symbols.table);
        return Panics;
      }
      out := next;
      i := i + 1;
    }
  }

  lemma ThenPanicsRight(a: Outcome<string>, b: Outcome<string>)
    requires b.Panics?
    ensures Then(a, b) == Panics
  {
  }

  /** Once the first `i` children panic, so do the first `k` for any larger `k`. */
  lemma {:induction false} PanicsPersist(n: Node, i: nat, k: nat, table: map<string, FlatSymbols.Symbol>)
    requires i <= k <= |n.children|
    requires EmitChildren(n, i, table).Panics?
    ensures EmitChildren(n, k, table).Panics?
    decreases k - i
  {
    if i < k {
      PanicsPersist(n, i, k - 1, table);
    }
  }

  /** `generate_code`: the entry stub, the text of the whole tree and the exit
      stub; nothing is written when the walk panics. */
  method GenerateCode(tree: Node, symbols: FlatSymbols.STManager) returns (out: Outcome<string>)
    ensures out.Returns? <==> EmitNode(tree, symbols.table).Returns?
    ensures out.Returns? ==> out.value == StartStub + EmitNode(tree, symbols.table).value + ExitStub
  {
    var program := GenerateStartStub("");
    assert program == StartStub;
    out := GenerateFromTree(program, tree, symbols);
    if out.Returns? {
      var text := GenerateExitStub(out.value);
      assert text == out.value + ExitStub;
      out := Returns(text);
    }
  }

  /** A generated program opens with the entry stub and closes with the exit
      system call. */
  lemma ProgramFraming(tree: Node, table: map<string, FlatSymbols.Symbol>)
    requires EmitNode(tree, table).Returns?
    ensures var text := StartStub + EmitNode(tree, table).value + ExitStub;
      text[..|StartStub|] == StartStub && text[|text| - |ExitStub|..] == ExitStub
  {
  }

  /** A tree with no function declaration, expression, variable declaration or
      return statement in it emits nothing. */
  predicate Silent(n: Node)
    decreases n
  {
    && n.kind !in {FunctionDeclaration, Expression, VarDecl, ReturnStatement}
    && forall i :: 0 <= i < |n.children| ==> Silent(n.children[i])
  }

  lemma {:induction false} SilentEmitsNothing(n: Node, table: map<string, FlatSymbols.Symbol>)
    requires Silent(n)
    ensures EmitNode(n, table) == Returns("")
    decreases n, 1, 0
  {
    SilentChildrenEmitNothing(n, |n.children|, table);
  }

  lemma {:induction false} SilentChildrenEmitNothing(n: Node, k: nat, table: map<string, FlatSymbols.Symbol>)
    requires k <= |n.children|
    requires forall i :: 0 <= i < |n.children| ==> Silent(n.children[i])
    ensures EmitChildren(n, k, table) == Returns("")
    decreases n, 0, k
  {
    if k > 0 {
      SilentChildrenEmitNothing(n, k - 1, table);
      SilentEmitsNothing(n.children[k - 1], table);
      assert "" + "" == "";
    }
  }

  /** A function declaration's text starts with the frame prologue. */
  lemma FunctionDeclarationOpensFrame(n: Node, table: map<string, FlatSymbols.Symbol>)
    requires n.kind == FunctionDeclaration
    requires EmitNode(n, table).Returns?
    ensures EmitNode(n, table).value[..|Prologue|] == Prologue
  {
  }

  /** Returning an `int` variable that `insert` placed in slot `ordinal`
      reads the stack at `rbp - (ordinal + 1) * 8`, the top of that slot. */
  lemma ReturnOfIntVariable(n: Node, table: map<string, FlatSymbols.Symbol>, ordinal: nat)
    requires |n.children| >= 2
    requires ValueOf(n.children[1]) != "" && Lexer.IsAlpha(ValueOf(n.children[1])[0])
    requires ValueOf(n.children[1]) in table
    requires table[ValueOf(n.children[1])] == FlatSymbols.NewSymbol("int", ordinal)
    requires (ordinal + 1) * 8 <= I32Max
    ensures ReturnEmission(n, table) == Returns("\tmov rdi, [rbp-" + IntToString((ordinal + 1) * 8) + "]\n")
  {
    FlatSymbols.SlotEndWithinNextSlot("int", ordinal);
  }

  /** Returning a constant moves its text into `rdi` unchanged. */
  lemma ReturnOfConstant(n: Node, table: map<string, FlatSymbols.Symbol>)
    requires |n.children| >= 2
    requires ValueOf(n.children[1]) != "" && !Lexer.IsAlpha(ValueOf(n.children[1])[0])
    ensures ReturnEmission(n, table) == Returns("\tmov rdi, " + ValueOf(n.children[1]) + "\n")
  {
  }

  /** A variable declaration pushes exactly when its name is bound. */
  lemma VarDeclPushesWhenBound(n: Node, table: map<string, FlatSymbols.Symbol>)
    requires n.kind == VarDecl && |n.children| >= 2
    requires EmitChildren(n, |n.children|, table).Returns?
    ensures EmitNode(n, table).Returns?
    ensures ValueOf(n.children[1]) in table ==>
      EmitNode(n, table).value == EmitChildren(n, |n.children|, table).value + "\tpush " + ValueOf(n) + "\n"
    ensures ValueOf(n.children[1]) !in table ==>
      EmitNode(n, table).value == EmitChildren(n, |n.children|, table).value
  {
  }

  /** Concrete folds: division truncates toward zero, overflow and a non
      number panic, and an unknown operator folds to nothing. */
  lemma ApplyOperationExamples()
    ensures ApplyOperation("-7", "/", "2") == Returns("-3")
    ensures ApplyOperation("7", "/", "0").Panics?
    ensures ApplyOperation("x", "+", "1").Panics?
    ensures ApplyOperation("1", "%", "2") == Returns("")
  {
    assert ParseI32("-7") == Some(-7) by {
      assert "-7"[1..] == "7";
    }
    assert ParseI32("2") == Some(2);
    assert Arith(-7, "/", 2) == -3;
    assert IntToString(-3) == "-3";
    assert ParseI32("0") == Some(0);
    assert ParseI32("x") == None by {
      assert !Decimal.IsDigitChar("x"[0]);
    }
  }
}
