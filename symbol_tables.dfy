/** The scoped symbol tables of symbol_table_c.rs: a `SymbolTable` is one
    frame (a map from identifiers to symbols and a running slot counter
    `ordinal`), and an `STManager` is a stack of frames searched from the top. */
module SymbolTables {
  import opened Common

  /** A declared name: its primitive type, its stack slot (`addr`, `size`),
      the register holding it (-1 for none) and whether it is a function. */
  datatype Symbol = Symbol(primitive: string, addr: nat, size: nat, register: int, func: bool)

  /** The symbol `insert` creates for slot number `ordinal`. */
  function NewSymbol(prim: string, ordinal: nat, func: bool): Symbol {
    Symbol(prim, ordinal * 8, 8, -1, func)
  }

  /** Every symbol of a frame sits in its own 8-byte slot below `ordinal * 8`. */
  predicate SlotsValid(table: map<string, Symbol>, ordinal: nat) {
    && (forall x :: x in table ==> table[x].addr % 8 == 0 && table[x].addr < ordinal * 8)
    && (forall x, y :: x in table && y in table && x != y ==> table[x].addr != table[y].addr)
  }

  /** Binding a name, fresh or already bound, uses a slot no other name holds. */
  lemma InsertKeepsSlotsValid(table: map<string, Symbol>, ordinal: nat, id: string, prim: string, func: bool)
    requires SlotsValid(table, ordinal)
    ensures SlotsValid(table[id := NewSymbol(prim, ordinal, func)], ordinal + 1)
  {
    var t := table[id := NewSymbol(prim, ordinal, func)];
    forall x, y | x in t && y in t && x != y ensures t[x].addr != t[y].addr {
      if x != id && y != id {
        assert t[x] == table[x] && t[y] == table[y];
      }
    }
  }

  /** Changing a register moves no symbol to another slot. */
  lemma ModifyRegisterKeepsSlotsValid(table: map<string, Symbol>, ordinal: nat, id: string, register: int)
    requires id in table
    requires SlotsValid(table, ordinal)
    ensures SlotsValid(table[id := table[id].(register := register)], ordinal)
  {
    var t := table[id := table[id].(register := register)];
    forall x, y | x in t && y in t && x != y ensures t[x].addr != t[y].addr {
      assert t[x].addr == table[x].addr && t[y].addr == table[y].addr;
    }
  }

  class SymbolTable {
    var table: map<string, Symbol>
    var ordinal: nat

    ghost predicate Valid()
      reads this
    {
      SlotsValid(table, ordinal)
    }

    /** An empty frame whose first slot is `ordinal`. */
    constructor (ordinal: nat)
      ensures this.table == map[] && this.ordinal == ordinal
      ensures Valid()
    {
      this.table := map[];
      this.ordinal := ordinal;
    }

    /** `insert`: binds `identifier`, overwriting any earlier binding, to a
        symbol in slot `ordinal`, and moves `ordinal` on by one. */
    method Insert(identifier: string, prim: string, func: bool)
      modifies this
      ensures table == old(table)[identifier := NewSymbol(prim, old(ordinal), func)]
      ensures ordinal == old(ordinal) + 1
      ensures old(Valid()) ==> Valid()
    {
      if Valid() {
        InsertKeepsSlotsValid(table, ordinal, identifier, prim, func);
      }
      table := table[identifier := NewSymbol(prim, ordinal, func)];
      ordinal := ordinal + 1;
    }

    /** `query`: the binding of `identifier`, if any. */
    function Query(identifier: string): (r: Option<Symbol>)
      reads this
      ensures r.Some? <==> identifier in table
      ensures r.Some? ==> r.value == table[identifier]
    {
      if identifier in table then Some(table[identifier]) else None
    }

    /** `modify_register`: only the register of an existing binding changes
        (indexing the map with a missing key panics in the source). */
    method ModifyRegister(identifier: string, register: int)
      requires identifier in table
      modifies this
      ensures table == old(table)[identifier := old(table)[identifier].(register := register)]
      ensures ordinal == old(ordinal)
      ensures old(Valid()) ==> Valid()
    {
      if Valid() {
        ModifyRegisterKeepsSlotsValid(table, ordinal, identifier, register);
      }
      var s := table[identifier];
      table := table[identifier := Symbol(s.primitive, s.addr, s.size, register, s.func)];
    }
  }

  // ---------------------------------------------------------------------------
  // The scope stack as a value

  /** The contents of one frame. */
  datatype Frame = Frame(table: map<string, Symbol>, ordinal: nat)

  /** `scope_lookup` on the frames `ts[1..k]`: the binding in the frame of
      highest index below `k` that has one; frame 0 is never consulted. */
  function ResolveUpTo(ts: seq<Frame>, k: nat, id: string): Option<Symbol>
    requires k <= |ts|
    decreases k
  {
    if k <= 1 then None
    else if id in ts[k - 1].table then Some(ts[k - 1].table[id])
    else ResolveUpTo(ts, k - 1, id)
  }

  function Resolve(ts: seq<Frame>, id: string): Option<Symbol> {
    ResolveUpTo(ts, |ts|, id)
  }

  /** The lookup below `k` finds something iff some frame from 1 up binds the name. */
  lemma {:induction false} ResolveUpToFound(ts: seq<Frame>, k: nat, id: string)
    requires k <= |ts|
    ensures ResolveUpTo(ts, k, id).Some? <==> exists j :: 1 <= j < k && id in ts[j].table
    decreases k
  {
    if k > 1 {
      ResolveUpToFound(ts, k - 1, id);
      if id !in ts[k - 1].table {
        assert forall j :: 1 <= j < k && id in ts[j].table ==> j < k - 1;
      }
    }
  }

  /** The innermost binding below `k` wins. */
  lemma {:induction false} ResolveUpToInnermost(ts: seq<Frame>, k: nat, id: string, j: nat)
    requires k <= |ts| && 1 <= j < k && id in ts[j].table
    requires forall i :: j < i < k ==> id !in ts[i].table
    ensures ResolveUpTo(ts, k, id) == Some(ts[j].table[id])
    decreases k
  {
    if j < k - 1 {
      ResolveUpToInnermost(ts, k - 1, id, j);
    }
  }

  lemma ResolveInnermost(ts: seq<Frame>, id: string, j: nat)
    requires 1 <= j < |ts| && id in ts[j].table
    requires forall i :: j < i < |ts| ==> id !in ts[i].table
    ensures Resolve(ts, id) == Some(ts[j].table[id])
  {
    ResolveUpToInnermost(ts, |ts|, id, j);
  }

  lemma ResolveUnbound(ts: seq<Frame>, id: string)
    requires forall j :: 1 <= j < |ts| ==> id !in ts[j].table
    ensures Resolve(ts, id) == None
  {
    ResolveUpToFound(ts, |ts|, id);
  }

  /** Frame 0 is invisible to the lookup: replacing it changes nothing. */
  lemma {:induction false} ResolveIgnoresFrameZero(ts: seq<Frame>, f: Frame, k: nat, id: string)
    requires 0 < |ts| && k <= |ts|
    ensures ResolveUpTo(ts[0 := f], k, id) == ResolveUpTo(ts, k, id)
    decreases k
  {
    if k > 1 {
      ResolveIgnoresFrameZero(ts, f, k - 1, id);
    }
  }

  /** So a name bound while the stack holds a single frame is never found. */
  lemma BindInOnlyFrameIsInvisible(f: Frame, id: string, prim: string, func: bool)
    ensures Resolve([Frame(f.table[id := NewSymbol(prim, f.ordinal, func)], f.ordinal + 1)], id) == None
  {
  }

  /** Entering a scope (pushing an empty frame) hides nothing. */
  lemma ResolveAfterEnter(ts: seq<Frame>, ordinal: nat, id: string)
    ensures Resolve(ts + [Frame(map[], ordinal)], id) == Resolve(ts, id)
  {
    var ts' := ts + [Frame(map[], ordinal)];
    if |ts| > 0 {
      ResolveUpToPrefix(ts', ts, |ts|, id);
    }
  }

  /** The lookup below `k` only depends on the frames below `k`. */
  lemma {:induction false} ResolveUpToPrefix(ts: seq<Frame>, us: seq<Frame>, k: nat, id: string)
    requires k <= |ts| && k <= |us|
    requires ts[..k] == us[..k]
    ensures ResolveUpTo(ts, k, id) == ResolveUpTo(us, k, id)
    decreases k
  {
    if k > 1 {
      assert ts[k - 1] == ts[..k][k - 1] == us[..k][k - 1] == us[k - 1];
      assert ts[..k - 1] == ts[..k][..k - 1];
      assert us[..k - 1] == us[..k][..k - 1];
      ResolveUpToPrefix(ts, us, k - 1, id);
    }
  }

  /** A name bound in the top frame of a stack of two or more frames is
      found, shadowing any outer binding; other names resolve as before. */
  lemma ResolveAfterBindTop(ts: seq<Frame>, id: string, other: string, s: Symbol)
    requires |ts| >= 2
    requires other != id
    ensures var top := ts[|ts| - 1];
            var ts' := ts[|ts| - 1 := Frame(top.table[id := s], top.ordinal + 1)];
            Resolve(ts', id) == Some(s) && Resolve(ts', other) == Resolve(ts, other)
  {
    var top := ts[|ts| - 1];
    var ts' := ts[|ts| - 1 := Frame(top.table[id := s], top.ordinal + 1)];
    assert ts'[..|ts| - 1] == ts[..|ts| - 1];
    ResolveUpToPrefix(ts', ts, |ts| - 1, other);
  }

  /** Leaving a scope whose frame does not bind `id` restores the outer
      binding of `id`. */
  lemma ResolveAfterExit(ts: seq<Frame>, id: string)
    requires |ts| >= 1 && id !in ts[|ts| - 1].table
    ensures Resolve(ts[..|ts| - 1], id) == Resolve(ts, id)
  {
    if |ts| > 1 {
      ResolveUpToPrefix(ts, ts[..|ts| - 1], |ts| - 1, id);
    }
  }

  // ---------------------------------------------------------------------------
  // The scope stack

  class STManager {
    var stack: seq<SymbolTable>

    /** The frames are distinct objects, so updating one leaves the others. */
    ghost predicate Valid()
      reads this
    {
      forall i, j :: 0 <= i < j < |stack| ==> stack[i] != stack[j]
    }

    /** The frames' contents, bottom first. */
    ghost function Tables(): seq<Frame>
      reads this, stack
    {
      seq(|stack|, i reads this, stack requires 0 <= i < |stack| => Frame(stack[i].table, stack[i].ordinal))
    }

    constructor ()
      ensures stack == [] && Valid()
    {
      stack := [];
    }

    /** `scope_enter`: pushes a new empty frame whose slots start at 1, or,
        for `newFrame == false`, where the current top frame's slots end
        (the source asserts the stack is non-empty then). */
    method ScopeEnter(newFrame: bool)
      requires newFrame || |stack| > 0
      requires Valid()
      modifies this
      ensures Valid()
      ensures |stack| == |old(stack)| + 1 && stack[..|old(stack)|] == old(stack)
      ensures fresh(stack[|stack| - 1])
      ensures Tables() == old(Tables()) + [Frame(map[], if newFrame then 1 else old(stack[|stack| - 1].ordinal))]
    {
      var ordinal := if newFrame then 1 else stack[|stack| - 1].ordinal;
      var frame := new SymbolTable(ordinal);
      stack := stack + [frame];
    }

    /** `scope_exit`: pops the top frame; `Vec::pop` on an empty stack does nothing. */
    method ScopeExit()
      requires Valid()
      modifies this
      ensures Valid()
      ensures stack == if |old(stack)| == 0 then old(stack) else old(stack)[..|old(stack)| - 1]
      ensures Tables() == if |old(stack)| == 0 then old(Tables()) else old(Tables())[..|old(stack)| - 1]
    {
      if |stack| > 0 {
        stack := stack[..|stack| - 1];
      }
    }

    /** `scope_level`: the number of frames. */
    function ScopeLevel(): (n: nat)
      reads this
      ensures n == |Tables()|
    {
      |stack|
    }

    /** `scope_bind`: inserts into the top frame; every other frame keeps
        its contents (`len() - 1` underflows on an empty stack). */
    method ScopeBind(identifier: string, prim: string, func: bool)
      requires |stack| > 0 && Valid()
      modifies stack[|stack| - 1]
      ensures Valid() && stack == old(stack)
      ensures var top := old(Tables())[|stack| - 1];
              Tables() == old(Tables())[|stack| - 1 :=
                Frame(top.table[identifier := NewSymbol(prim, top.ordinal, func)], top.ordinal + 1)]
    {
      var top := stack[|stack| - 1];
      top.Insert(identifier, prim, func);
      assert forall i :: 0 <= i < |stack| - 1 ==> stack[i] != top;
    }

    /** `scope_lookup`: searches the frames from the top down to frame 1. */
    method ScopeLookup(identifier: string) returns (r: Option<Symbol>)
      requires |stack| > 0
      ensures r == Resolve(Tables(), identifier)
    {
      ghost var ts := Tables();
      var index := |stack| - 1;
      while index > 0
        invariant 0 <= index < |stack|
        invariant Resolve(ts, identifier) == ResolveUpTo(ts, index + 1, identifier)
        decreases index
      {
        var found := stack[index].Query(identifier);
        if found.Some? {
          assert ts[index] == Frame(stack[index].table, stack[index].ordinal);
          return found;
        }
        assert ts[index] == Frame(stack[index].table, stack[index].ordinal);
        index := index - 1;
      }
      return None;
    }

    /** `scope_lookup_current`: consults the top frame only. */
    method ScopeLookupCurrent(identifier: string) returns (r: Option<Symbol>)
      requires |stack| > 0
      ensures var top := Tables()[|stack| - 1];
              r == if identifier in top.table then Some(top.table[identifier]) else None
    {
      r := stack[|stack| - 1].Query(identifier);
    }
  }
}
