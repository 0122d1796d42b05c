/**
 The tables that give each variable its slot (compiler/bytecode/local_table.go).
 A block's table is chained to the one around it.
 */
module LocalTables {
  import opened Wrappers
  import opened Ast
  import opened Layout
  import opened WellFormed

  class LocalTable {
    var store: map<Name, nat>
    var count: nat
    const depth: nat
    const upper: LocalTable?

    ghost var names: seq<Name>           // the names in the order of their slots
    ghost const Repr: set<LocalTable>    // this table and those around it

    ghost predicate Valid()
      reads Repr
      decreases Repr
    {
      && this in Repr
      && |names| == count && NoDup(names)
      && (forall x {:trigger x in store} :: x in store <==> x in names)
      && (forall i {:trigger names[i]} :: 0 <= i < |names| ==> names[i] in store && store[names[i]] == i)
      && (upper == null ==> depth == 0)
      && (upper != null ==>
            && upper in Repr && upper.Repr <= Repr && this !in upper.Repr
            && upper.Valid() && depth == upper.depth + 1)
    }

    /** The names of this table and of each one around it, innermost first. */
    ghost function Tables(): (r: seq<seq<Name>>)
      requires Valid()
      reads Repr
      ensures |r| == depth + 1 && r[0] == names
      decreases Repr
    {
      if upper == null then [names] else [names] + upper.Tables()
    }

    /** What compilation sees of the table. */
    ghost function View(): Scope
      requires Valid()
      reads Repr
    {
      Scope(names, Tables()[1..])
    }

    constructor (d: nat, u: LocalTable?)
      requires u == null ==> d == 0
      requires u != null ==> u.Valid() && d == u.depth + 1
      ensures Valid() && View() == Scope([], if u == null then [] else u.Tables())
      ensures fresh(this) && upper == u && depth == d && Repr == {this} + (if u == null then {} else u.Repr)
    {
      store, count, depth, upper := map[], 0, d, u;
      names, Repr := [], {this} + (if u == null then {} else u.Repr);
    }

    method Get(v: Name) returns (i: nat, ok: bool)
      requires Valid()
      ensures ok == (v in names) && (ok ==> i < |names| && names[i] == v && i == Find(names, v))
    {
      ok := v in store;
      i := if ok then store[v] else 0;
      if ok { FindUnique(names, v, i); }
    }

    /** A new name gets the next slot of this table, whatever the tables around it hold. */
    method Set(val: Name) returns (c: nat)
      requires Valid()
      modifies this
      ensures Valid() && names == (if val in old(names) then old(names) else old(names) + [val])
      ensures val in names && c == Find(names, val)
      ensures Tables()[1..] == old(Tables()[1..])
    {
      ghost var around := Tables()[1..];
      var ok: bool;
      c, ok := Get(val);
      if !ok {
        c := count;
        AddNoDup(names, val);
        store := store[val := c];
        count := count + 1;
        names := names + [val];
        FindUnique(names, val, c);
      }
      assert Tables()[1..] == around;
    }

    /** The innermost table that has the name: its slot, and how many tables out it is. */
    method GetLocal(v: Name, d: nat) returns (index: int, dep: int, ok: bool)
      requires Valid() && depth <= d
      ensures ok == ResolveOuter(Tables(), v).Some?
      ensures ok ==>
        dep >= d - depth && index >= 0 && ResolveOuter(Tables(), v) == Some(Address(dep - (d - depth), index))
      ensures !ok ==> index == -1 && dep == 0
      decreases Repr
    {
      var i;
      i, ok := Get(v);
      if ok {
        return i, d - depth, true;
      }
      if upper != null {
        index, dep, ok := upper.GetLocal(v, d);
        assert Tables()[1..] == upper.Tables();
        return;
      }
      assert Tables()[1..] == [];
      return -1, 0, false;
    }

    /** A name no table has is added to this one. */
    method SetLocal(v: Name, d: nat) returns (index: int, dep: int)
      requires Valid() && d == depth
      modifies this
      ensures Valid() && View() == Declare(old(View()), v)
      ensures index >= 0 && dep >= 0 && Resolve(View(), v) == Some(Address(dep, index))
    {
      ghost var before := View();
      ResolveTables(Tables(), v);
      var ok: bool;
      index, dep, ok := GetLocal(v, d);
      if !ok {
        index := Set(v);
        dep := 0;
      }
      ResolveTables(Tables(), v);
    }
  }

  lemma FindUnique(names: seq<Name>, x: Name, i: nat)
    requires NoDup(names) && i < |names| && names[i] == x
    ensures Find(names, x) == i
  {
    var j := Find(names, x);
    assert i < j ==> Differ(names, i, j);
    assert j < i ==> Differ(names, j, i);
  }

  /** Looking through all tables is looking through the first and then the others. */
  lemma ResolveTables(tables: seq<seq<Name>>, x: Name)
    requires |tables| > 0
    ensures Resolve(Scope(tables[0], tables[1..]), x) == ResolveOuter(tables, x)
  {
  }
}
