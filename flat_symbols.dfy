/** The single, unscoped symbol table of parse_c.rs (its `STManager`), used
    by the parser of that file; symbol sizes come from the declared type. */
module FlatSymbols {
  import opened Common

  datatype Symbol = Symbol(primitive: string, addr: nat, size: nat, register: int)

  /** `get_primitive_size`: one 8-byte slot for `int`, `char` and `bool`,
      nothing for any other type name. */
  function GetPrimitiveSize(prim: string): (size: nat)
    ensures size == 8 <==> prim in {"int", "char", "bool"}
    ensures size == 0 <==> prim !in {"int", "char", "bool"}
  {
    if prim == "int" || prim == "char" || prim == "bool" then 8 else 0
  }

  /** The symbol `insert` creates for slot number `ordinal`. */
  function NewSymbol(prim: string, ordinal: nat): Symbol {
    Symbol(prim, ordinal * 8, GetPrimitiveSize(prim), -1)
  }

  /** Distinct names sit at distinct addresses, all multiples of 8 below
      `ordinal * 8`. */
  predicate SlotsValid(table: map<string, Symbol>, ordinal: nat) {
    && (forall x :: x in table ==> table[x].addr % 8 == 0 && table[x].addr < ordinal * 8)
    && (forall x, y :: x in table && y in table && x != y ==> table[x].addr != table[y].addr)
  }

  lemma InsertKeepsSlotsValid(table: map<string, Symbol>, ordinal: nat, id: string, prim: string)
    requires SlotsValid(table, ordinal)
    ensures SlotsValid(table[id := NewSymbol(prim, ordinal)], ordinal + 1)
  {
    var t := table[id := NewSymbol(prim, ordinal)];
    forall x, y | x in t && y in t && x != y ensures t[x].addr != t[y].addr {
      if x != id && y != id {
        assert t[x] == table[x] && t[y] == table[y];
      }
    }
  }

  /** The stack offset the code generator reads a variable from lies inside
      the variable's slot: `addr + size` is at most one slot past `addr`. */
  lemma SlotEndWithinNextSlot(prim: string, ordinal: nat)
    ensures NewSymbol(prim, ordinal).addr + NewSymbol(prim, ordinal).size <= (ordinal + 1) * 8
    ensures prim == "int" ==> NewSymbol(prim, ordinal).addr + NewSymbol(prim, ordinal).size == (ordinal + 1) * 8
  {
  }

  class STManager {
    var table: map<string, Symbol>
    var ordinal: nat

    ghost predicate Valid()
      reads this
    {
      SlotsValid(table, ordinal)
    }

    /** An empty table whose first slot is `ordinal` (the source builds the
        struct literally; no construction site is part of this model). */
    constructor (ordinal: nat)
      ensures this.table == map[] && this.ordinal == ordinal
      ensures Valid()
    {
      this.table := map[];
      this.ordinal := ordinal;
    }

    /** `insert`: binds `identifier`, overwriting any earlier binding, to a
        symbol in slot `ordinal` sized by its type, and moves `ordinal` on by one. */
    method Insert(identifier: string, prim: string)
      modifies this
      ensures table == old(table)[identifier := NewSymbol(prim, old(ordinal))]
      ensures ordinal == old(ordinal) + 1
      ensures old(Valid()) ==> Valid()
    {
      if Valid() {
        InsertKeepsSlotsValid(table, ordinal, identifier, prim);
      }
      table := table[identifier := NewSymbol(prim, ordinal)];
      ordinal := ordinal + 1;
    }

    /** `query`: the binding of `identifier`, if any. */
    function Query(identifier: string): (r: Option<Symbol>)
      reads this
      ensures r.Some? <==> identifier in table
      ensures r.Some? ==> r.value == table[identifier]
    {
      if identifier in table then Some(table[identifier]) else None
    }

    /** `modify_register`: only the register of an existing binding changes. */
    method ModifyRegister(identifier: string, register: int)
      requires identifier in table
      modifies this
      ensures table == old(table)[identifier := old(table)[identifier].(register := register)]
      ensures ordinal == old(ordinal)
      ensures old(Valid()) ==> Valid()
    {
      var s := table[identifier];
      table := table[identifier := Symbol(s.primitive, s.addr, s.size, register)];
      assert forall x :: x in table ==> table[x].addr == old(table)[x].addr;
    }
  }
}
