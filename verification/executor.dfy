/**
 The query executor: looks up the plan's table and projects every stored row
 onto the plan's columns.
 */
module Executor {
  import opened Wrappers
  import opened Query
  import opened Schema
  import opened StorageEngine

  datatype ExecutionError = TableNotFound(name: string)

  datatype ExecutionEngine = ExecutionEngine(storageEngine: StorageEngine)

  /** The column names a projection asks for. */
  function ColumnNames(projection: seq<Identifier>): set<string> {
    set i | 0 <= i < |projection| :: projection[i].text
  }

  /** `row.data.get(column).cloned().unwrap_or_default()`: a missing column reads as "". */
  function ValueOrDefault(row: Row, column: string): string {
    if column in row.data then row.data[column] else ""
  }

  /** The inner loop of `execute`: inserts each projected column, in order, into `acc`. */
  function ProjectInto(acc: map<string, string>, row: Row, columns: seq<Identifier>): (r: map<string, string>)
    ensures r.Keys == acc.Keys + ColumnNames(columns)
    ensures forall k :: k in ColumnNames(columns) ==> r[k] == ValueOrDefault(row, k)
    ensures forall k :: k in acc && k !in ColumnNames(columns) ==> r[k] == acc[k]
    decreases |columns|
  {
    if columns == [] then acc
    else
      var c := columns[0].text;
      assert ColumnNames(columns) == {c} + ColumnNames(columns[1..]) by {
        assert forall i :: 0 < i < |columns| ==> columns[i] == columns[1..][i - 1];
      }
      ProjectInto(acc[c := ValueOrDefault(row, c)], row, columns[1..])
  }

  /** One output row: exactly the projected column names as keys, each holding
      the source row's value for that name or "" when the row has none. Column
      names are not checked against anything, and `*` is an ordinary name. */
  function ProjectRow(row: Row, projection: seq<Identifier>): (r: Row)
    ensures r.data.Keys == ColumnNames(projection)
    ensures forall k :: k in r.data ==> r.data[k] == ValueOrDefault(row, k)
  {
    Row(ProjectInto(map[], row, projection))
  }

  /** `order` lists every element of `ids` exactly once. */
  ghost predicate ListsExactly(order: seq<nat>, ids: set<nat>) {
    && |order| == |ids|
    && (forall i :: 0 <= i < |order| ==> order[i] in ids)
    && (forall id :: id in ids ==> id in order)
    && (forall i, j :: 0 <= i < j < |order| ==> order[i] != order[j])
  }

  /** Visiting one more, not yet visited id extends an exact listing. */
  lemma ListsExactlyAppend(order: seq<nat>, ids: set<nat>, id: nat)
    requires ListsExactly(order, ids) && id !in ids
    ensures ListsExactly(order + [id], ids + {id})
  {
    var order' := order + [id];
    forall x | x in ids + {id}
      ensures x in order'
    {
      if x != id {
        var i :| 0 <= i < |order| && order[i] == x;
        assert order'[i] == x;
      } else {
        assert order'[|order|] == x;
      }
    }
  }

  /** Lists the ids of `ids` one at a time, each step taking any id not yet
      listed: the iteration order of a `HashMap`, which the source leaves unspecified. */
  method EnumerateIds(ids: set<nat>) returns (order: seq<nat>)
    ensures ListsExactly(order, ids)
  {
    var remaining := ids;
    order := [];
    ghost var visited: set<nat> := {};
    while remaining != {}
      invariant remaining !! visited && remaining + visited == ids
      invariant ListsExactly(order, visited)
      decreases |remaining|
    {
      var id :| id in remaining;
      ListsExactlyAppend(order, visited, id);
      order := order + [id];
      visited := visited + {id};
      remaining := remaining - {id};
    }
  }

  /** The row loop of `execute`: projects every row of `rows`, visiting the ids
      in an unspecified order, which the ghost `order` records. */
  method ProjectRows(rows: map<nat, Row>, projection: seq<Identifier>)
    returns (result: seq<Row>, ghost order: seq<nat>)
    ensures ListsExactly(order, rows.Keys)
    ensures |result| == |rows|
    ensures forall i :: 0 <= i < |result| ==> result[i] == ProjectRow(rows[order[i]], projection)
  {
    var ids := EnumerateIds(rows.Keys);
    result := seq(|ids|, i requires 0 <= i < |ids| => ProjectRow(rows[ids[i]], projection));
    order := ids;
  }

  /** `ExecutionEngine::execute`: `TableNotFound` with the plan's table name when
      the table is absent; otherwise one projected row per stored row, in the
      unspecified order recorded by the ghost `order`. The engine is not changed. */
  method Execute(engine: ExecutionEngine, plan: QueryPlan)
    returns (r: Result<seq<Row>, ExecutionError>, ghost order: seq<nat>)
    ensures r.Failure? <==> plan.table.text !in engine.storageEngine.tables
    ensures r.Failure? ==> r.error == TableNotFound(plan.table.text)
    ensures r.Success? ==>
              var rows := engine.storageEngine.tables[plan.table.text].rows;
              && ListsExactly(order, rows.Keys)
              && |r.value| == |rows|
              && (forall i :: 0 <= i < |r.value| ==> r.value[i] == ProjectRow(rows[order[i]], plan.projection))
  {
    var name := plan.table.text;
    if name !in engine.storageEngine.tables {
      return Failure(TableNotFound(name)), [];
    }
    var result;
    result, order := ProjectRows(engine.storageEngine.tables[name].rows, plan.projection);
    return Success(result), order;
  }

  /** A projected column the row lacks reads as "", and extra row columns are dropped. */
  lemma MissingColumnDefaultsToEmpty()
    ensures ProjectRow(Row(map["id" := "1", "name" := "Ada"]), [Identifier("id"), Identifier("email")])
            == Row(map["id" := "1", "email" := ""])
  {
    var row := Row(map["id" := "1", "name" := "Ada"]);
    var projection := [Identifier("id"), Identifier("email")];
    var r := ProjectRow(row, projection);
    assert ColumnNames(projection) == {"id", "email"} by {
      assert projection[0].text == "id" && projection[1].text == "email";
    }
    assert r.data["id"] == "1";
    assert "email" != "id" && "email" !in row.data;
    assert r.data["email"] == "";
  }

  /** `*` is not expanded: it is looked up as a column literally named `*`. */
  lemma StarIsNotExpanded(row: Row)
    ensures ProjectRow(row, [Identifier("*")]).data == map["*" := ValueOrDefault(row, "*")]
  {
    var projection := [Identifier("*")];
    assert ColumnNames(projection) == {"*"} by {
      assert projection[0].text == "*";
    }
  }
}
