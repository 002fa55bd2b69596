/** What an import leaves behind and what each of its refusals says, in terms of stored rows and cells. */
module TenantImportMeaning {
  import opened Common
  import opened TenantTables
  import opened TenantImport
  import opened TenantImportRun
  import opened TenantClosure
  import opened TenantImportTransaction
  import opened TenantImportTheorems

  /** The row's cells in the columns, none of them NULL, stand in the other row's columns. */
  ghost predicate Matches(row: Row, columns: seq<nat>, q: Row, referenced: seq<nat>) {
    && |columns| == |referenced|
    && forall i :: 0 <= i < |columns| ==>
         columns[i] < |row| && referenced[i] < |q| && row[columns[i]].Some? && row[columns[i]] == q[referenced[i]]
  }

  ghost predicate Complete(row: Row, columns: seq<nat>) {
    forall c :: c in columns ==> c < |row| && row[c].Some?
  }

  /** The row of a user the import was told to map to one that exists. */
  ghost predicate IsMapped(table: Table, row: Row, users: seq<string>) {
    table.name == "User" && row != [] && row[0].Some? && row[0].value in users
  }

  ghost predicate IsUnder(k: Key, table: Table, row: Row) {
    |k| == |table.primaryKey| && forall i :: 0 <= i < |k| && table.primaryKey[i] < |row| ==> k[i] == row[table.primaryKey[i]]
  }

  lemma CompleteHasNoNull(row: Row, columns: seq<nat>)
    ensures Complete(row, columns) <==> !HasNull(Project(row, columns))
  {
    var values := Project(row, columns);
    forall i | 0 <= i < |columns| ensures columns[i] in columns && values[i] in values {
    }
  }

  lemma MatchesMeans(row: Row, columns: seq<nat>, q: Row, referenced: seq<nat>)
    requires |columns| == |referenced|
    ensures Matches(row, columns, q, referenced)
       <==> Complete(row, columns) && Project(q, referenced) == Project(row, columns)
  {
    var values, found := Project(row, columns), Project(q, referenced);
    forall i | 0 <= i < |columns| ensures columns[i] in columns {
    }
    if Matches(row, columns, q, referenced) {
      assert values == found;
    } else if values == found {
      forall i | 0 <= i < |columns| ensures found[i] == values[i] {
      }
    }
  }

  lemma LinkedIsMapped(table: Table, row: Row, users: seq<string>)
    ensures IsLinked(table, row, SetOf(users)) <==> IsMapped(table, row, users)
  {
  }

  // ---------- what a commit leaves ----------

  /** Every old row is kept, and no table gains a row but under the key of one inserted into it. */
  ghost predicate OldRowsKept(db: Database, target: Database, inserted: seq<seq<Row>>, tables: seq<Table>)
    requires |inserted| == |tables|
  {
    && (forall name, k :: name in target && k in target[name] ==> name in db && k in db[name] && db[name][k] == target[name][k])
    && forall name, k :: name in db && k in db[name] ==>
         || (name in target && k in target[name])
         || exists t, row :: 0 <= t < |tables| && tables[t].name == name && row in inserted[t] && IsUnder(k, tables[t], row)
  }

  /** A row is stored complete under its own key, which was free before. */
  ghost predicate StoredNew(db: Database, target: Database, table: Table, row: Row) {
    && table.name in db && table.name in target
    && exists k :: IsUnder(k, table, row) && k in db[table.name] && k !in target[table.name] && db[table.name][k] == row
  }

  lemma KeyIsUnder(table: Table, row: Row)
    ensures IsUnder(KeyOf(table, row), table, row)
  {
  }

  lemma PublishedKeepsOld(db: Database, target: Database, inserted: seq<seq<Row>>, tables: seq<Table>)
    requires |inserted| == |tables| && Published(db, inserted, tables, target)
    ensures OldRowsKept(db, target, inserted, tables)
  {
    hide KeyOf, IsUnder;
    PublishedGrows(db, inserted, tables, target);
    forall name, k | name in db && k in db[name] && !(name in target && k in target[name])
      ensures exists t, row :: 0 <= t < |tables| && tables[t].name == name && row in inserted[t] && IsUnder(k, tables[t], row)
    {
      var t :| 0 <= t < |tables| && tables[t].name == name;
      assert TablePublished(db[name], target[name], tables[t], inserted[t]);
      var row :| row in inserted[t] && KeyOf(tables[t], row) == k;
      KeyIsUnder(tables[t], row);
    }
  }

  lemma PublishedStores(db: Database, target: Database, inserted: seq<seq<Row>>, tables: seq<Table>, t: nat, row: Row)
    requires |inserted| == |tables| && Published(db, inserted, tables, target) && t < |tables| && row in inserted[t]
    ensures StoredNew(db, target, tables[t], row)
  {
    hide KeyOf, IsUnder;
    assert TablePublished(db[tables[t].name], target[tables[t].name], tables[t], inserted[t]);
    KeyIsUnder(tables[t], row);
    assert IsUnder(KeyOf(tables[t], row), tables[t], row);
  }

  /** After a commit the old rows are as they were; every row of the snapshot but those of mapped users is
      stored complete under a key of its own, with a value in every required column; and nothing else was
      added. */
  lemma CommitLeaves(inserted: seq<seq<Row>>, db: Database, target: Database, tables: seq<Table>, users: seq<string>)
    requires TransactionHolds(Committed(inserted), db, target, tables, users)
    ensures |inserted| == |tables| && OldRowsKept(db, target, inserted, tables)
    ensures forall t, row :: 0 <= t < |tables| ==> (row in inserted[t] <==> row in tables[t].rows && !IsMapped(tables[t], row, users))
    ensures forall t :: 0 <= t < |tables| && tables[t].name != "User" ==> multiset(inserted[t]) == multiset(tables[t].rows)
    ensures forall t, row :: 0 <= t < |tables| && row in inserted[t] ==> StoredNew(db, target, tables[t], row)
    ensures forall t, row :: 0 <= t < |tables| && row in inserted[t] ==> RowFilled(tables[t], row)
  {
    hide Published, OldRowsKept, StoredNew, IsMapped, IsLinked, OrderFits, Closed, UsersPresent, PatchRepeats;
    PublishedKeepsOld(db, target, inserted, tables);
    forall t, row | 0 <= t < |tables| ensures IsLinked(tables[t], row, SetOf(users)) <==> IsMapped(tables[t], row, users) {
      LinkedIsMapped(tables[t], row, users);
    }
    forall t, row | 0 <= t < |tables| && row in inserted[t] ensures StoredNew(db, target, tables[t], row) {
      PublishedStores(db, target, inserted, tables, t, row);
    }
    var order :| InsertedIn(order, inserted, tables, target);
    forall t, row | 0 <= t < |tables| && row in inserted[t] ensures RowFilled(tables[t], row) {
      assert Node(t, row) in order;
    }
  }

  /** And every reference of an inserted row, if none of its cells is NULL, finds a stored row with its
      values, users being referred to by id. */
  lemma ReferencesAreStored(inserted: seq<seq<Row>>, db: Database, target: Database, tables: seq<Table>,
                            users: seq<string>, t: nat, row: Row, key: ForeignKey)
    requires Commits(inserted, db, target, tables, users) && UsersById(tables)
    requires |inserted| == |tables| && t < |tables| && row in inserted[t] && key in tables[t].foreignKeys
    requires Complete(row, key.columns)
    ensures key.referencedTable in db
    ensures exists k :: k in db[key.referencedTable] && Matches(row, key.columns, db[key.referencedTable][k], key.referencedColumns)
  {
    hide TransactionHolds, UsersById, Matches, Complete, Project, TargetFits, TablesFit;
    CompleteHasNoNull(row, key.columns);
    EveryReferenceResolves(inserted, db, target, tables, users, t, row, key);
    KeyLengths(tables, t, key);
    var stored := db[key.referencedTable];
    var k :| k in stored && Project(stored[k], key.referencedColumns) == Project(row, key.columns);
    MatchesMeans(row, key.columns, stored[k], key.referencedColumns);
  }

  // ---------- what a refusal says ----------

  /** The reference finds no row of the snapshot and no mapped user. */
  ghost predicate LeadsNowhere(tables: seq<Table>, row: Row, key: ForeignKey, users: seq<string>) {
    && Complete(row, key.columns)
    && (key.referencedTable == "User" && key.referencedColumns == [0] ==> forall c :: c in key.columns ==> row[c].value !in users)
    && forall u, q :: 0 <= u < |tables| && tables[u].name == key.referencedTable && q in tables[u].rows ==>
         !Matches(row, key.columns, q, key.referencedColumns)
  }

  lemma ClosesOrLeadsNowhere(tables: seq<Table>, row: Row, key: ForeignKey, users: seq<string>)
    requires |key.columns| == |key.referencedColumns| > 0
    ensures KeyCloses(tables, key, row, SetOf(users)) <==> !LeadsNowhere(tables, row, key, users)
  {
    hide Matches, HasNull;
    CompleteHasNoNull(row, key.columns);
    forall u, q | 0 <= u < |tables| && q in tables[u].rows
      ensures Matches(row, key.columns, q, key.referencedColumns)
         <==> Complete(row, key.columns) && Project(q, key.referencedColumns) == Project(row, key.columns)
    {
      MatchesMeans(row, key.columns, q, key.referencedColumns);
    }
    if Complete(row, key.columns) {
      assert key.columns[0] in key.columns;
      assert Project(row, key.columns)[0] == row[key.columns[0]];
    }
  }

  /** The import is refused as not closed exactly when some reference of some row leads nowhere. */
  lemma NotClosedExactly(result: Result, db: Database, target: Database, tables: seq<Table>, users: seq<string>)
    requires TablesFit(tables) && TransactionHolds(result, db, target, tables, users)
    ensures result.NotClosed? <==>
      exists t, row, key :: 0 <= t < |tables| && row in tables[t].rows && key in tables[t].foreignKeys && LeadsNowhere(tables, row, key, users)
  {
    hide KeyCloses, LeadsNowhere, TablesFit, CommitHolds, UsersPresent, UserExists, StoppedIn, PatchWouldRepeat;
    forall t, row, key | 0 <= t < |tables| && row in tables[t].rows && key in tables[t].foreignKeys
      ensures KeyCloses(tables, key, row, SetOf(users)) <==> !LeadsNowhere(tables, row, key, users)
    {
      KeyLengths(tables, t, key);
      ClosesOrLeadsNowhere(tables, row, key, users);
    }
    if !Closed(tables, SetOf(users)) {
      var t :| 0 <= t < |tables| && !TableCloses(tables, tables[t], SetOf(users));
      var row :| row in tables[t].rows && !RowCloses(tables, tables[t], row, SetOf(users));
      var key :| key in tables[t].foreignKeys && !KeyCloses(tables, key, row, SetOf(users));
    } else {
      forall t, row, key | 0 <= t < |tables| && row in tables[t].rows && key in tables[t].foreignKeys
        ensures KeyCloses(tables, key, row, SetOf(users))
      {
        ClosesAt(tables, SetOf(users), t, row, key);
      }
    }
  }

  /** A refusal changes nothing, and names a mapped user the target does not have, or a row of the
      snapshot that has NULL in a required column. */
  lemma RefusalNames(result: Result, db: Database, target: Database, tables: seq<Table>, users: seq<string>)
    requires TransactionHolds(result, db, target, tables, users) && !result.Committed?
    ensures db == target
    ensures result.LinkedUserMissing? ==>
      && result.user in users
      && ("User" in target ==> forall k :: k in target["User"] && target["User"][k] != [] ==> target["User"][k][0] != Some(result.user))
    ensures result.Refused? && result.why.NotNullViolation? ==>
      var n := result.why.node;
      && IsRow(tables, n) && !IsMapped(tables[n.table], n.row, users)
      && exists c :: 0 <= c < |tables[n.table].nullable| && !tables[n.table].nullable[c] && (c >= |n.row| || n.row[c] == None)
  {
    hide Closed, UsersPresent, IsMapped, IsLinked, Running, NothingMoves, PatchWouldRepeat;
    if result.LinkedUserMissing? && "User" in target {
      forall k | k in target["User"] && target["User"][k] != [] ensures target["User"][k][0] != Some(result.user) {
        assert Project(target["User"][k], [USER_ID]) == [target["User"][k][0]];
      }
    }
    if result.Refused? && result.why.NotNullViolation? {
      var w, done :| StoppedIn(result.why, w, done, tables, SetOf(users), target);
      var n := result.why.node;
      LinkedIsMapped(tables[n.table], n.row, users);
    }
  }
}
