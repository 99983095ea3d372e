/**
 The in-memory table store: a map from table name to table, with table
 creation and row insertion. Row ids are assigned as the table's row count.
 */
module StorageEngine {
  import opened Schema

  datatype StorageEngine = StorageEngine(tables: map<string, Table>)

  /** The ids of a table's rows are exactly `0 .. |rows| - 1`. */
  ghost predicate DenseRowIds(t: Table) {
    forall id: nat :: id in t.rows <==> id < |t.rows|
  }

  /** Every table of the engine has dense row ids. */
  ghost predicate Valid(e: StorageEngine) {
    forall name :: name in e.tables ==> DenseRowIds(e.tables[name])
  }

  /** `StorageEngine::new`: no tables. */
  function New(): (e: StorageEngine)
    ensures e.tables.Keys == {}
    ensures Valid(e)
  {
    StorageEngine(map[])
  }

  /** `StorageEngine::create_table`: maps `name` to a table with the given columns
      and no rows, replacing any table of that name; other tables are unchanged. */
  function CreateTable(e: StorageEngine, name: string, columns: seq<string>): (r: StorageEngine)
    ensures r.tables.Keys == e.tables.Keys + {name}
    ensures r.tables[name].columns == columns && |r.tables[name].rows| == 0
    ensures forall other :: other in e.tables && other != name ==> r.tables[other] == e.tables[other]
  {
    StorageEngine(e.tables[name := Table(columns, map[])])
  }

  /** `StorageEngine::insert_row`: stores `row` under id `|rows|` of the named
      table. A missing table leaves the engine as it was (no error is reported).
      The table's columns, its other rows and all other tables are unchanged. */
  function InsertRow(e: StorageEngine, name: string, row: Row): (r: StorageEngine)
    ensures name !in e.tables ==> r == e
    ensures r.tables.Keys == e.tables.Keys
    ensures name in e.tables ==>
              var before := e.tables[name];
              var after := r.tables[name];
              && after.columns == before.columns
              && |before.rows| in after.rows && after.rows[|before.rows|] == row
              && after.rows.Keys == before.rows.Keys + {|before.rows|}
              && (forall id :: id in before.rows && id != |before.rows| ==> after.rows[id] == before.rows[id])
    ensures forall other :: other in e.tables && other != name ==> r.tables[other] == e.tables[other]
  {
    if name in e.tables then
      var table := e.tables[name];
      var rowId := |table.rows|;
      StorageEngine(e.tables[name := table.(rows := table.rows[rowId := row])])
    else
      e
  }

  /** `create_table` preserves the invariant: the new table has no rows. */
  lemma CreateTablePreservesValid(e: StorageEngine, name: string, columns: seq<string>)
    requires Valid(e)
    ensures Valid(CreateTable(e, name, columns))
  {
    var r := CreateTable(e, name, columns);
    assert r.tables[name].rows == map[];
  }

  /** On a table with dense ids the next id, `|rows|`, is fresh: storing a row
      under it adds exactly one row and keeps the ids dense. */
  lemma AppendKeepsRowIdsDense(t: Table, row: Row)
    requires DenseRowIds(t)
    ensures var t' := t.(rows := t.rows[|t.rows| := row]);
            DenseRowIds(t') && |t'.rows| == |t.rows| + 1
  {
    assert |t.rows| !in t.rows;
  }

  /** `insert_row` preserves the invariant, and on an existing table the row
      count grows by exactly one. */
  lemma InsertRowPreservesValid(e: StorageEngine, name: string, row: Row)
    requires Valid(e)
    ensures Valid(InsertRow(e, name, row))
    ensures name in e.tables ==>
              |InsertRow(e, name, row).tables[name].rows| == |e.tables[name].rows| + 1
  {
    if name in e.tables {
      var t := e.tables[name];
      AppendKeepsRowIdsDense(t, row);
      assert InsertRow(e, name, row).tables == e.tables[name := t.(rows := t.rows[|t.rows| := row])];
    }
  }

  /** Three inserts into a freshly created table assign ids 0, 1 and 2, in order. */
  lemma ThreeInsertsAssignConsecutiveIds(e: StorageEngine, name: string, columns: seq<string>,
                                         r0: Row, r1: Row, r2: Row)
    ensures var e3 := InsertRow(InsertRow(InsertRow(CreateTable(e, name, columns), name, r0), name, r1), name, r2);
            && e3.tables[name].rows == map[0 := r0, 1 := r1, 2 := r2]
            && e3.tables[name].columns == columns
  {
    var e0 := CreateTable(e, name, columns);
    assert e0.tables[name].rows == map[];
    var e1 := InsertRow(e0, name, r0);
    assert e1.tables[name].rows == map[0 := r0];
    var e2 := InsertRow(e1, name, r1);
    assert e2.tables[name].rows == map[0 := r0, 1 := r1];
    var e3 := InsertRow(e2, name, r2);
    assert |e2.tables[name].rows| == 2;
    assert e3.tables[name].rows == map[0 := r0, 1 := r1, 2 := r2];
  }
}
