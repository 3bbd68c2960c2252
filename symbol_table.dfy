/**
 * The scoped symbol table of src/symbol_table.h.
 *
 * A `SymbolTable` owns its store and, through `outer`, the chain of
 * enclosing tables. The ghost field `Stores` lists the stores of the whole
 * chain, innermost first; `Lookup` and `DefineInScopes` say what `resolve`
 * and `define` mean on that list, and the class is proved to follow them.
 */
module Symbols {
  import opened Wrappers
  import opened Tokens

  /** `SymbolType`: the only kind of symbol is a variable. */
  datatype SymbolType = SymVar

  datatype SymbolEntry = SymbolEntry(name: string, symType: SymbolType, declaredTokenType: Kind)

  type Store = map<string, SymbolEntry>

  /** The entry for `name` in the first store, innermost first, that has one. */
  function Lookup(stores: seq<Store>, name: string): Option<SymbolEntry>
  {
    if stores == [] then None
    else if name in stores[0] then Some(stores[0][name])
    else Lookup(stores[1..], name)
  }

  /** A name resolves exactly when some scope of the chain holds it. */
  lemma {:induction false} LookupFindsAnyHolder(stores: seq<Store>, name: string)
    ensures Lookup(stores, name).Some? <==> exists i :: 0 <= i < |stores| && name in stores[i]
  {
    if stores != [] {
      LookupFindsAnyHolder(stores[1..], name);
      if name !in stores[0] && exists i :: 0 <= i < |stores| && name in stores[i] {
        var i :| 0 <= i < |stores| && name in stores[i];
        assert name in stores[1..][i - 1];
      }
    }
  }

  /** The innermost scope holding a name decides its entry: inner bindings shadow outer ones. */
  lemma {:induction false} InnermostBindingWins(stores: seq<Store>, name: string, i: nat)
    requires i < |stores| && name in stores[i]
    requires forall j :: 0 <= j < i ==> name !in stores[j]
    ensures Lookup(stores, name) == Some(stores[i][name])
    decreases i
  {
    if i > 0 {
      assert name !in stores[0];
      InnermostBindingWins(stores[1..], name, i - 1);
    }
  }

  /**
   * `define` on the chain: a name already in the innermost store is
   * refused and nothing changes; otherwise exactly that entry is added to
   * the innermost store and the enclosing stores are left alone.
   */
  function DefineInScopes(stores: seq<Store>, name: string, entry: SymbolEntry): (r: (bool, seq<Store>))
    requires stores != []
    ensures r.0 <==> name !in stores[0]
    ensures !r.0 ==> r.1 == stores
    ensures r.0 ==> r.1 == [stores[0][name := entry]] + stores[1..]
    ensures |r.1| == |stores| && r.1[1..] == stores[1..]
    ensures r.0 ==> Lookup(r.1, name) == Some(entry)
    ensures forall other :: other != name ==> Lookup(r.1, other) == Lookup(stores, other)
  {
    if name in stores[0] then (false, stores)
    else
      var stores' := [stores[0][name := entry]] + stores[1..];
      assert stores'[1..] == stores[1..];
      (true, stores')
  }

  class SymbolTable {
    var store: Store
    var outer: SymbolTable?
    /** The stores of this table and of its enclosing chain, innermost first. */
    ghost var Stores: seq<Store>
    ghost var Repr: set<object>

    ghost predicate Valid()
      reads this, Repr
      decreases Repr
    {
      && this in Repr
      && |Stores| >= 1 && Stores[0] == store
      && (outer == null ==> Repr == {this} && Stores == [store])
      && (outer != null ==>
            && outer in Repr && outer.Repr <= Repr && this !in outer.Repr
            && Repr == {this} + outer.Repr
            && outer.Valid()
            && Stores == [store] + outer.Stores)
    }

    /**
     * `SymbolTable()` (no `outer`) and `SymbolTable(std::unique_ptr<SymbolTable> o)`:
     * an empty store in front of the chain it takes over.
     */
    constructor (outer: SymbolTable?)
      requires outer != null ==> outer.Valid()
      ensures Valid() && fresh(Repr - (if outer == null then {} else outer.Repr))
      ensures this.outer == outer && store == map[]
      ensures Stores == [map[]] + (if outer == null then [] else outer.Stores)
    {
      store := map[];
      this.outer := outer;
      Stores := [map[]] + (if outer == null then [] else outer.Stores);
      Repr := {this} + (if outer == null then {} else outer.Repr);
    }

    /** `define`: add `name` to this table's own store unless it is already there. */
    method Define(name: string, symType: SymbolType, declaredType: Kind) returns (ok: bool)
      modifies this
      requires Valid()
      ensures Valid() && Repr == old(Repr) && outer == old(outer)
      ensures (ok, Stores) == DefineInScopes(old(Stores), name, SymbolEntry(name, symType, declaredType))
      ensures ok ==> Resolve(name) == Some(SymbolEntry(name, symType, declaredType))
    {
      if name in store {
        return false;
      }
      store := store[name := SymbolEntry(name, symType, declaredType)];
      Stores := [store] + Stores[1..];
      return true;
    }

    /** `resolve`: this table's store first, then the enclosing chain; `None` for a null pointer. */
    function Resolve(name: string): (r: Option<SymbolEntry>)
      reads this, Repr
      requires Valid()
      ensures r == Lookup(Stores, name)
      decreases Repr
    {
      if name in store then Some(store[name])
      else if outer != null then
        assert Stores[1..] == outer.Stores;
        outer.Resolve(name)
      else None
    }

    /** `getOuterPtr`: the enclosing table, null exactly for a root table. */
    function GetOuterPtr(): (r: SymbolTable?)
      reads this, Repr
      requires Valid()
      ensures r == null <==> |Stores| == 1
      ensures r != null ==> r.Valid() && r.Stores == Stores[1..] && r.Repr < Repr
    {
      assert outer != null ==> outer.Valid() && |outer.Stores| >= 1;
      outer
    }

    /** `popOuterScope`: hand the enclosing chain back to the caller; this table becomes a root. */
    method PopOuterScope() returns (o: SymbolTable?)
      modifies this
      requires Valid()
      ensures Valid() && Stores == [store] && store == old(store) && outer == null
      ensures o == old(outer)
      ensures o != null ==> o.Valid() && o.Stores == old(Stores)[1..] && o.Repr == old(Repr) - {this}
    {
      o := outer;
      outer := null;
      Stores := [store];
      Repr := {this};
    }
  }
}
