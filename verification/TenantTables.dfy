/** Tables of keyed text rows with foreign keys, and a database as a map of maps. A column is its
    position in its table's column list; a cell is None for SQL NULL. */
module TenantTables {
  import opened Common

  type Value = Option<string>
  type Row = seq<Value>
  type Key = seq<Value>

  datatype ForeignKey = ForeignKey(columns: seq<nat>, referencedTable: string, referencedColumns: seq<nat>)

  datatype Table = Table(name: string, nullable: seq<bool>, primaryKey: seq<nat>, foreignKeys: seq<ForeignKey>,
                         rows: seq<Row>)

  type Database = map<string, map<Key, Row>>

  /** Reading a column that does not exist gives undefined, which serializes like null. */
  function Cell(row: Row, column: nat): Value {
    if column < |row| then row[column] else None
  }

  function Project(row: Row, columns: seq<nat>): (values: seq<Value>)
    ensures |values| == |columns| && forall i :: 0 <= i < |columns| ==> values[i] == Cell(row, columns[i])
  {
    seq(|columns|, i requires 0 <= i < |columns| => Cell(row, columns[i]))
  }

  predicate HasNull(values: seq<Value>) {
    None in values
  }

  function KeyOf(table: Table, row: Row): Key {
    Project(row, table.primaryKey)
  }

  /** Catalog and row-shape facts the mover checks before it uses a table. */
  predicate TableFits(table: Table) {
    && table.primaryKey != []
    && (forall c :: c in table.primaryKey ==> c < |table.nullable| && !table.nullable[c])
    && (forall row :: row in table.rows ==> |row| == |table.nullable|)
    && forall key :: key in table.foreignKeys ==> KeyFits(table, key)
  }

  predicate KeyFits(table: Table, key: ForeignKey) {
    && key.columns != [] && |key.columns| == |key.referencedColumns|
    && forall c :: c in key.columns ==> c < |table.nullable|
  }

  /** No two rows of a table share a primary key, as in the database they came from. */
  ghost predicate KeysDistinct(table: Table) {
    forall i, j :: 0 <= i < j < |table.rows| ==> KeyOf(table, table.rows[i]) != KeyOf(table, table.rows[j])
  }

  predicate NamesDistinct(tables: seq<Table>) {
    forall i, j :: 0 <= i < j < |tables| ==> tables[i].name != tables[j].name
  }

  predicate TablesFit(tables: seq<Table>) {
    NamesDistinct(tables) && forall t :: 0 <= t < |tables| ==> TableFits(tables[t])
  }

  /** SELECT 1 FROM table WHERE columns = values; values without NULL. */
  predicate Exists(db: Database, table: string, columns: seq<nat>, values: seq<Value>) {
    table in db && exists k :: k in db[table] && Project(db[table][k], columns) == values
  }

  /** Every row of a survives unchanged in b. */
  ghost predicate Grows(a: Database, b: Database) {
    forall name :: name in a ==> name in b && forall k :: k in a[name] ==> k in b[name] && b[name][k] == a[name][k]
  }

  lemma ExistsGrows(a: Database, b: Database, table: string, columns: seq<nat>, values: seq<Value>)
    requires Grows(a, b) && Exists(a, table, columns, values)
    ensures Exists(b, table, columns, values)
  {
    var k :| k in a[table] && Project(a[table][k], columns) == values;
    assert k in b[table];
  }

  /** A row of a table, by the table's position. */
  datatype Node = Node(table: nat, row: Row)

  predicate IsRow(tables: seq<Table>, n: Node) {
    n.table < |tables| && n.row in tables[n.table].rows
  }
}
