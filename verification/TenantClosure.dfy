/** The closure check that runs before the import: every reference resolves inside the snapshot or
    names a linked user. Referenced values are indexed once per referenced table and column list. */
module TenantClosure {
  import opened TenantTables
  import opened TenantImport

  predicate HasRow(tables: seq<Table>, key: ForeignKey, values: seq<Value>) {
    exists t, q :: 0 <= t < |tables| && tables[t].name == key.referencedTable && q in tables[t].rows
                   && Project(q, key.referencedColumns) == values
  }

  /** A reference to an existing user that stands in for a snapshot user. */
  predicate RefersToLinked(key: ForeignKey, values: seq<Value>, linked: set<string>) {
    key.referencedTable == "User" && key.referencedColumns == [USER_ID] && |values| > 0 && NamesLinked(values[0], linked)
  }

  predicate KeyCloses(tables: seq<Table>, key: ForeignKey, row: Row, linked: set<string>) {
    var values := Project(row, key.columns);
    HasNull(values) || RefersToLinked(key, values, linked) || HasRow(tables, key, values)
  }

  predicate RowCloses(tables: seq<Table>, table: Table, row: Row, linked: set<string>) {
    forall key :: key in table.foreignKeys ==> KeyCloses(tables, key, row, linked)
  }

  predicate TableCloses(tables: seq<Table>, table: Table, linked: set<string>) {
    forall row :: row in table.rows ==> RowCloses(tables, table, row, linked)
  }

  predicate Closed(tables: seq<Table>, linked: set<string>) {
    forall t :: 0 <= t < |tables| ==> TableCloses(tables, tables[t], linked)
  }

  type ValueIndex = map<(string, seq<nat>), set<seq<Value>>>

  /** Every cached entry holds exactly the referenced values of the snapshot. */
  ghost predicate IndexCorrect(index: ValueIndex, tables: seq<Table>) {
    forall name, columns :: (name, columns) in index ==> EntryCorrect(index[(name, columns)], tables, name, columns)
  }

  ghost predicate EntryCorrect(entry: set<seq<Value>>, tables: seq<Table>, name: string, columns: seq<nat>) {
    forall values :: values in entry <==> ValuesFound(tables, name, columns, values)
  }

  ghost predicate ValuesFound(tables: seq<Table>, name: string, columns: seq<nat>, values: seq<Value>) {
    exists t, q :: 0 <= t < |tables| && tables[t].name == name && q in tables[t].rows && Project(q, columns) == values
  }

  method BuildEntry(tables: seq<Table>, name: string, columns: seq<nat>) returns (entry: set<seq<Value>>)
    requires NamesDistinct(tables)
    ensures EntryCorrect(entry, tables, name, columns)
  {
    for t := 0 to |tables|
      invariant forall u :: 0 <= u < t ==> tables[u].name != name
    {
      if tables[t].name == name {
        entry := set q | q in tables[t].rows :: Project(q, columns);
        return;
      }
    }
    entry := {};
  }

  method CheckRowCloses(tables: seq<Table>, table: Table, row: Row, linked: set<string>, start: ValueIndex)
    returns (closed: bool, index: ValueIndex)
    requires NamesDistinct(tables) && TableFits(table) && IndexCorrect(start, tables)
    ensures closed <==> RowCloses(tables, table, row, linked)
    ensures IndexCorrect(index, tables)
  {
    hide ValuesFound, HasRow;
    index, closed := start, true;
    for i := 0 to |table.foreignKeys|
      invariant IndexCorrect(index, tables)
      invariant closed && forall j :: 0 <= j < i ==> KeyCloses(tables, table.foreignKeys[j], row, linked)
    {
      var key := table.foreignKeys[i];
      assert KeyFits(table, key);
      var values := Project(row, key.columns);
      if HasNull(values) || RefersToLinked(key, values, linked) { continue; }
      var at := (key.referencedTable, key.referencedColumns);
      if at !in index {
        var entry := BuildEntry(tables, key.referencedTable, key.referencedColumns);
        index := index[at := entry];
      }
      assert EntryCorrect(index[at], tables, key.referencedTable, key.referencedColumns);
      FoundIsHasRow(tables, key, values);
      if values !in index[at] {
        closed := false;
        assert !KeyCloses(tables, table.foreignKeys[i], row, linked);
        return;
      }
    }
  }

  lemma FoundIsHasRow(tables: seq<Table>, key: ForeignKey, values: seq<Value>)
    ensures ValuesFound(tables, key.referencedTable, key.referencedColumns, values) <==> HasRow(tables, key, values)
  {
  }

  /** The check accepts exactly the closed snapshots. */
  method CheckClosure(tables: seq<Table>, linked: set<string>) returns (closed: bool)
    requires TablesFit(tables)
    ensures closed <==> Closed(tables, linked)
  {
    hide RowCloses, EntryCorrect, TableFits;
    var index: ValueIndex := map[];
    for t := 0 to |tables|
      invariant IndexCorrect(index, tables)
      invariant forall u :: 0 <= u < t ==> TableCloses(tables, tables[u], linked)
    {
      var rows := tables[t].rows;
      for i := 0 to |rows|
        invariant IndexCorrect(index, tables)
        invariant forall j :: 0 <= j < i ==> RowCloses(tables, tables[t], rows[j], linked)
      {
        closed, index := CheckRowCloses(tables, tables[t], rows[i], linked, index);
        if !closed {
          assert rows[i] in rows && !TableCloses(tables, tables[t], linked);
          return;
        }
      }
    }
    closed := true;
  }
}
