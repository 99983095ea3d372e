/** The table and row records kept by the storage engine. */
module Schema {

  /** A row maps column names to text values. Its keys are not checked against
      the table's declared columns: a row may hold a subset of them or others. */
  datatype Row = Row(data: map<string, string>)

  /** A table: its declared column names in order (duplicates allowed), and its
      rows keyed by row id. */
  datatype Table = Table(columns: seq<string>, rows: map<nat, Row>)
}
