/** `add_table` and the module-level `TABLES` list of app/models/dbmodel.py:
    decorating a model class appends the class's table and then the join
    table of each of its many-to-many fields, in declaration order, and
    gives the class back unchanged. */
module Registry {

  /** A model class as `add_table` sees it: its own table and the join
      tables (`m2m.get_through_model()`) of its many-to-many fields. */
  datatype ModelClass = ModelClass(table: string, throughTables: seq<string>)

  /** What registering one class appends. */
  function TablesOf(m: ModelClass): seq<string>
  {
    [m.table] + m.throughTables
  }

  /** What registering the classes `ms`, in order, appends. */
  function AllTables(ms: seq<ModelClass>): seq<string>
  {
    if ms == [] then [] else TablesOf(ms[0]) + AllTables(ms[1..])
  }

  /** Where the tables of `ms[i]` start. */
  function Offset(ms: seq<ModelClass>, i: nat): nat
    requires i <= |ms|
  {
    if i == 0 then 0 else |TablesOf(ms[0])| + Offset(ms[1..], i - 1)
  }

  lemma {:induction false} AllTablesAppend(ms1: seq<ModelClass>, ms2: seq<ModelClass>)
    ensures AllTables(ms1 + ms2) == AllTables(ms1) + AllTables(ms2)
    decreases |ms1|
  {
    if ms1 != [] {
      assert (ms1 + ms2)[0] == ms1[0];
      assert (ms1 + ms2)[1..] == ms1[1..] + ms2;
      AllTablesAppend(ms1[1..], ms2);
      calc {
        AllTables(ms1 + ms2);
        TablesOf(ms1[0]) + AllTables(ms1[1..] + ms2);
        TablesOf(ms1[0]) + (AllTables(ms1[1..]) + AllTables(ms2));
        (TablesOf(ms1[0]) + AllTables(ms1[1..])) + AllTables(ms2);
      }
    } else {
      assert ms1 + ms2 == ms2;
    }
  }

  /** Each class's tables sit together, the class's own table first and its
      join tables after it, at the position where the earlier classes'
      tables end. */
  lemma {:induction false} ClassTablesContiguous(ms: seq<ModelClass>, i: nat)
    requires i < |ms|
    ensures Offset(ms, i) + |TablesOf(ms[i])| <= |AllTables(ms)|
    ensures AllTables(ms)[Offset(ms, i)..Offset(ms, i) + |TablesOf(ms[i])|] == TablesOf(ms[i])
    ensures AllTables(ms)[Offset(ms, i)] == ms[i].table
    decreases i
  {
    var all := AllTables(ms);
    assert all == TablesOf(ms[0]) + AllTables(ms[1..]);
    if i > 0 {
      ClassTablesContiguous(ms[1..], i - 1);
      assert ms[1..][i - 1] == ms[i];
      var k := |TablesOf(ms[0])|;
      assert all[k..] == AllTables(ms[1..]);
    }
  }

  /** The `TABLES` list. */
  class TableRegistry {
    var tables: seq<string>

    constructor ()
      ensures tables == []
    {
      tables := [];
    }

    /** `add_table(model)`: earlier entries stay, the class's table and then
        its join tables are appended, and the class is returned. */
    method AddTable(m: ModelClass) returns (r: ModelClass)
      modifies this
      ensures tables == old(tables) + TablesOf(m)
      ensures r == m
    {
      tables := tables + [m.table];
      var i := 0;
      while i < |m.throughTables|
        invariant 0 <= i <= |m.throughTables|
        invariant tables == old(tables) + [m.table] + m.throughTables[..i]
      {
        tables := tables + [m.throughTables[i]];
        i := i + 1;
      }
      assert m.throughTables[..i] == m.throughTables;
      r := m;
    }

    /** The `@add_table` decorators of a module, in source order. */
    method AddTables(ms: seq<ModelClass>)
      modifies this
      ensures tables == old(tables) + AllTables(ms)
    {
      var i := 0;
      while i < |ms|
        invariant 0 <= i <= |ms|
        invariant tables == old(tables) + AllTables(ms[..i])
      {
        var _ := AddTable(ms[i]);
        AllTablesAppend(ms[..i], [ms[i]]);
        assert ms[..i + 1] == ms[..i] + [ms[i]];
        assert AllTables([ms[i]]) == TablesOf(ms[i]);
        i := i + 1;
      }
      assert ms[..i] == ms;
    }
  }
}
