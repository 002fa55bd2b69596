/** The import worklist: pass after pass, a row is inserted once every foreign key it carries is
    satisfied; nullable references into the same table are inserted as NULL and patched at the
    end. Nothing is visible unless the whole transaction commits. */
module TenantImport {
  import opened Common
  import opened TenantTables

  // ---------- one row ----------

  /** A nullable reference into the same table, postponed to the end. */
  predicate Deferred(table: Table, key: ForeignKey, row: Row) {
    && key.referencedTable == table.name
    && !HasNull(Project(row, key.columns))
    && forall c :: c in key.columns ==> c < |table.nullable| && table.nullable[c]
  }

  /** The columns inserted as NULL for now. */
  predicate Postponed(table: Table, row: Row, column: nat) {
    exists key :: key in table.foreignKeys && Deferred(table, key, row) && column in key.columns
  }

  /** The columns of the postponed keys among the first n, key by key. A column two such keys share is
      listed twice. */
  function PostponedBelow(table: Table, row: Row, n: nat): seq<nat>
    requires n <= |table.foreignKeys|
  {
    if n == 0 then []
    else
      PostponedBelow(table, row, n - 1)
      + if Deferred(table, table.foreignKeys[n - 1], row) then table.foreignKeys[n - 1].columns else []
  }

  /** The columns the final UPDATE of the row sets, in its order. */
  function PostponedList(table: Table, row: Row): seq<nat> {
    PostponedBelow(table, row, |table.foreignKeys|)
  }

  /** PostgreSQL refuses an UPDATE that sets one column twice. */
  predicate RepeatsColumn(table: Table, row: Row) {
    !NoRepeats(PostponedList(table, row))
  }

  lemma {:induction false} InPostponedBelow(table: Table, row: Row, n: nat, c: nat)
    requires n <= |table.foreignKeys|
    ensures c in PostponedBelow(table, row, n) <==>
      exists j :: 0 <= j < n && Deferred(table, table.foreignKeys[j], row) && c in table.foreignKeys[j].columns
  {
    hide Deferred;
    if n > 0 {
      InPostponedBelow(table, row, n - 1, c);
    }
  }

  /** The list holds exactly the postponed columns. */
  lemma PostponedListHolds(table: Table, row: Row)
    ensures forall c :: c in PostponedList(table, row) <==> Postponed(table, row, c)
  {
    hide Deferred, PostponedBelow;
    forall c: nat ensures c in PostponedList(table, row) <==> Postponed(table, row, c) {
      InPostponedBelow(table, row, |table.foreignKeys|, c);
      if Postponed(table, row, c) {
        var key :| key in table.foreignKeys && Deferred(table, key, row) && c in key.columns;
        var j :| 0 <= j < |table.foreignKeys| && table.foreignKeys[j] == key;
      }
    }
  }

  /** The row as first inserted. */
  function Stored(table: Table, row: Row): (stored: Row)
    ensures |stored| == |row|
    ensures forall i :: 0 <= i < |row| ==> stored[i] == if Postponed(table, row, i) then None else row[i]
  {
    seq(|row|, i requires 0 <= i < |row| => if Postponed(table, row, i) then None else row[i])
  }

  predicate HasPostponed(table: Table, row: Row) {
    exists key :: key in table.foreignKeys && Deferred(table, key, row)
  }

  predicate KeySatisfied(db: Database, table: Table, key: ForeignKey, row: Row) {
    || HasNull(Project(row, key.columns))
    || Deferred(table, key, row)
    || Exists(db, key.referencedTable, key.referencedColumns, Project(row, key.columns))
  }

  predicate Ready(db: Database, table: Table, row: Row) {
    forall key :: key in table.foreignKeys ==> KeySatisfied(db, table, key, row)
  }

  /** Position of the id column of the User table. */
  const USER_ID := 0

  predicate NamesLinked(value: Value, linked: set<string>) {
    value.Some? && value.value in linked
  }

  /** A user row that is mapped onto an existing user and therefore not inserted. */
  predicate IsLinked(table: Table, row: Row, linked: set<string>) {
    table.name == "User" && NamesLinked(Cell(row, USER_ID), linked)
  }

  lemma PostponedIsNullable(table: Table, row: Row, c: nat)
    requires Postponed(table, row, c)
    ensures c < |table.nullable| && table.nullable[c]
  {
  }

  /** Primary-key columns are never postponed. */
  lemma StoredKeepsKey(table: Table, row: Row)
    requires TableFits(table)
    ensures KeyOf(table, Stored(table, row)) == KeyOf(table, row)
  {
    forall i | 0 <= i < |table.primaryKey|
      ensures Cell(Stored(table, row), table.primaryKey[i]) == Cell(row, table.primaryKey[i])
    {
      assert table.primaryKey[i] in table.primaryKey;
    }
  }

  // ---------- the state of the loops ----------

  /** A row to patch, and the columns that were postponed. */
  datatype Edge = Edge(table: nat, row: Row, columns: seq<nat>)

  /** The transaction's database, rows still pending, rows inserted, rows to patch. */
  datatype Work = Work(db: Database, pending: seq<seq<Row>>, inserted: seq<seq<Row>>, edges: seq<Edge>)

  /** What the database holds for an inserted row. */
  function Image(table: Table, row: Row, patched: set<Row>): Row {
    if row in patched then row else Stored(table, row)
  }

  /** One table: what was there before, plus the inserted rows, nothing else. */
  ghost predicate TableHolds(now: map<Key, Row>, before: map<Key, Row>, table: Table, inserted: seq<Row>,
                             patched: set<Row>) {
    && (forall k :: k in before ==> k in now && now[k] == before[k])
    && (forall r :: r in inserted ==> KeyOf(table, r) in now && now[KeyOf(table, r)] == Image(table, r, patched))
    && (forall r :: r in inserted ==> KeyOf(table, r) !in before)
    && (forall k :: k in now ==> k in before || exists r :: r in inserted && KeyOf(table, r) == k)
    && (forall r, q :: r in inserted && q in inserted && KeyOf(table, r) == KeyOf(table, q) ==> r == q)
  }

  ghost predicate TargetFits(target: Database, tables: seq<Table>) {
    forall t :: 0 <= t < |tables| ==> tables[t].name in target
  }

  ghost predicate DatabaseHolds(db: Database, inserted: seq<seq<Row>>, tables: seq<Table>, target: Database,
                                patched: seq<set<Row>>)
    requires |inserted| == |tables| == |patched|
  {
    && db.Keys == target.Keys
    && (forall name :: name in target && (forall t :: 0 <= t < |tables| ==> tables[t].name != name) ==> db[name] == target[name])
    && forall t :: 0 <= t < |tables| ==>
         tables[t].name in target
         && TableHolds(db[tables[t].name], target[tables[t].name], tables[t], inserted[t], patched[t])
  }

  ghost predicate Shaped(w: Work, tables: seq<Table>) {
    |w.pending| == |tables| && |w.inserted| == |tables|
  }

  ghost predicate RowsCovered(w: Work, tables: seq<Table>, linked: set<string>)
    requires Shaped(w, tables)
  {
    forall t :: 0 <= t < |tables| ==> TableCovered(tables[t], w.pending[t], w.inserted[t], linked)
  }

  /** Every inserted row has all its immediate references satisfied. */
  ghost predicate ReferencesHold(db: Database, inserted: seq<seq<Row>>, tables: seq<Table>)
    requires |inserted| == |tables|
  {
    forall t, r :: 0 <= t < |tables| && r in inserted[t] ==> Ready(db, tables[t], r)
  }

  ghost predicate EdgeFits(e: Edge, tables: seq<Table>, inserted: seq<seq<Row>>)
    requires |inserted| == |tables|
  {
    && e.table < |tables| && e.row in inserted[e.table]
    && e.columns == PostponedList(tables[e.table], e.row) != []
  }

  ghost predicate IsEdgeOf(e: Edge, t: nat, r: Row) {
    e.table == t && e.row == r
  }

  ghost predicate EdgesHold(w: Work, tables: seq<Table>)
    requires Shaped(w, tables)
  {
    && (forall e :: e in w.edges ==> EdgeFits(e, tables, w.inserted))
    && (forall t, r :: 0 <= t < |tables| && r in w.inserted[t] && HasPostponed(tables[t], r) ==>
          exists e :: e in w.edges && IsEdgeOf(e, t, r))
  }

  function NonePatched(n: nat): seq<set<Row>> {
    seq(n, i => {})
  }

  ghost predicate Sound(w: Work, tables: seq<Table>, linked: set<string>, target: Database) {
    && Shaped(w, tables)
    && DatabaseHolds(w.db, w.inserted, tables, target, NonePatched(|tables|))
    && RowsCovered(w, tables, linked)
    && ReferencesHold(w.db, w.inserted, tables)
    && EdgesHold(w, tables)
  }

  function Remaining(pending: seq<seq<Row>>, n: nat): nat
    requires n <= |pending|
  {
    if n == 0 then 0 else Remaining(pending, n - 1) + |pending[n - 1]|
  }

  function Dropped(rows: seq<Row>, offset: nat): seq<Row>
    requires offset < |rows|
  {
    rows[..offset] + rows[offset + 1..]
  }

  /** entry.rows.splice(offset, 1). */
  function Spliced(w: Work, t: nat, offset: nat): Work
    requires t < |w.pending| && offset < |w.pending[t]|
  {
    w.(pending := w.pending[t := Dropped(w.pending[t], offset)])
  }

  /** INSERT of one row, its postponed columns NULL. */
  function Inserted(w: Work, table: Table, t: nat, offset: nat, columns: seq<nat>): Work
    requires t < |w.pending| && t < |w.inserted| && offset < |w.pending[t]| && table.name in w.db
  {
    var row := w.pending[t][offset];
    Spliced(w, t, offset).(
      db := w.db[table.name := w.db[table.name][KeyOf(table, row) := Stored(table, row)]],
      inserted := w.inserted[t := w.inserted[t] + [row]],
      edges := if columns != [] then w.edges + [Edge(t, row, columns)] else w.edges)
  }

  lemma DroppedRows(rows: seq<Row>, offset: nat)
    requires offset < |rows|
    ensures forall r :: r in Dropped(rows, offset) ==> r in rows
    ensures forall r :: r in rows ==> r == rows[offset] || r in Dropped(rows, offset)
    ensures multiset(rows) == multiset(Dropped(rows, offset)) + multiset{rows[offset]}
  {
    assert rows == rows[..offset] + [rows[offset]] + rows[offset + 1..];
    forall r | r in rows ensures r == rows[offset] || r in Dropped(rows, offset) {
      var i :| 0 <= i < |rows| && rows[i] == r;
      if i < offset {
        assert Dropped(rows, offset)[i] == r;
      } else if i > offset {
        assert Dropped(rows, offset)[i - 1] == r;
      }
    }
  }

  lemma TableCoveredLess(table: Table, pending: seq<Row>, inserted: seq<Row>, linked: set<string>, offset: nat)
    requires TableCovered(table, pending, inserted, linked) && offset < |pending|
    requires IsLinked(table, pending[offset], linked)
    ensures TableCovered(table, Dropped(pending, offset), inserted, linked)
  {
    hide NamesLinked;
    DroppedRows(pending, offset);
  }

  lemma SplicedIsSound(w: Work, tables: seq<Table>, linked: set<string>, target: Database, t: nat, offset: nat)
    requires Sound(w, tables, linked, target) && t < |tables| && offset < |w.pending[t]|
    requires IsLinked(tables[t], w.pending[t][offset], linked)
    ensures Sound(Spliced(w, t, offset), tables, linked, target)
  {
    hide IsLinked, TableCovered, TableHolds, Ready, HasPostponed, EdgeFits, IsEdgeOf, Dropped;
    TableCoveredLess(tables[t], w.pending[t], w.inserted[t], linked, offset);
  }

  // ---------- inserting keeps the state sound ----------

  lemma TableHoldsMore(now: map<Key, Row>, before: map<Key, Row>, table: Table, inserted: seq<Row>, row: Row)
    requires TableHolds(now, before, table, inserted, {}) && KeyOf(table, row) !in now
    ensures TableHolds(now[KeyOf(table, row) := Stored(table, row)], before, table, inserted + [row], {})
  {
    hide Stored, KeyOf;
  }

  lemma InsertedHolds(w: Work, tables: seq<Table>, target: Database, t: nat, offset: nat, columns: seq<nat>)
    requires Shaped(w, tables) && NamesDistinct(tables)
    requires DatabaseHolds(w.db, w.inserted, tables, target, NonePatched(|tables|))
    requires t < |tables| && offset < |w.pending[t]|
    requires KeyOf(tables[t], w.pending[t][offset]) !in w.db[tables[t].name]
    ensures var v := Inserted(w, tables[t], t, offset, columns);
      DatabaseHolds(v.db, v.inserted, tables, target, NonePatched(|tables|)) && Grows(w.db, v.db)
  {
    hide TableHolds, Stored, KeyOf;
    var v := Inserted(w, tables[t], t, offset, columns);
    TableHoldsMore(w.db[tables[t].name], target[tables[t].name], tables[t], w.inserted[t], w.pending[t][offset]);
    forall u | 0 <= u < |tables|
      ensures tables[u].name in target
           && TableHolds(v.db[tables[u].name], target[tables[u].name], tables[u], v.inserted[u], NonePatched(|tables|)[u])
    {
      if u != t {
        assert tables[u].name != tables[t].name;
      }
    }
  }

  lemma ReadyGrows(a: Database, b: Database, table: Table, row: Row)
    requires Grows(a, b) && Ready(a, table, row)
    ensures Ready(b, table, row)
  {
    hide Grows, Exists, Deferred;
    forall key | key in table.foreignKeys ensures KeySatisfied(b, table, key, row) {
      assert KeySatisfied(a, table, key, row);
      if Exists(a, key.referencedTable, key.referencedColumns, Project(row, key.columns)) {
        ExistsGrows(a, b, key.referencedTable, key.referencedColumns, Project(row, key.columns));
      }
    }
  }

  lemma PostponedMeansColumns(table: Table, row: Row)
    requires TableFits(table)
    ensures HasPostponed(table, row) <==> PostponedList(table, row) != []
  {
    hide PostponedList;
    var columns := PostponedList(table, row);
    PostponedListHolds(table, row);
    if HasPostponed(table, row) {
      var key :| key in table.foreignKeys && Deferred(table, key, row);
      assert KeyFits(table, key);
      assert key.columns[0] in key.columns;
      assert Postponed(table, row, key.columns[0]);
    }
    if columns != [] {
      assert columns[0] in columns;
    }
  }

  lemma InsertedEdges(w: Work, tables: seq<Table>, t: nat, offset: nat, columns: seq<nat>)
    requires Shaped(w, tables) && EdgesHold(w, tables) && t < |tables| && offset < |w.pending[t]|
    requires TableFits(tables[t]) && tables[t].name in w.db
    requires columns == PostponedList(tables[t], w.pending[t][offset])
    ensures EdgesHold(Inserted(w, tables[t], t, offset, columns), tables)
  {
    hide HasPostponed, PostponedList, Stored, KeyOf, TableFits;
    var v := Inserted(w, tables[t], t, offset, columns);
    var row := w.pending[t][offset];
    PostponedMeansColumns(tables[t], row);
    if columns != [] {
      assert Edge(t, row, columns) in v.edges && IsEdgeOf(Edge(t, row, columns), t, row);
    }
    forall u, r | 0 <= u < |tables| && r in v.inserted[u] && HasPostponed(tables[u], r)
      ensures exists e :: e in v.edges && IsEdgeOf(e, u, r)
    {
      if r in w.inserted[u] {
        var e :| e in w.edges && IsEdgeOf(e, u, r);
        assert e in v.edges;
      }
    }
  }

  ghost predicate TableCovered(table: Table, pending: seq<Row>, inserted: seq<Row>, linked: set<string>) {
    && multiset(pending) + multiset(inserted) <= multiset(table.rows)
    && (table.name != "User" ==> multiset(pending) + multiset(inserted) == multiset(table.rows))
    && (forall r :: r in pending ==> r in table.rows)
    && (forall r :: r in inserted ==> r in table.rows && !IsLinked(table, r, linked))
    && (forall r :: r in table.rows ==> r in pending || r in inserted || IsLinked(table, r, linked))
  }

  lemma TableCoveredMore(table: Table, pending: seq<Row>, inserted: seq<Row>, linked: set<string>, offset: nat)
    requires TableCovered(table, pending, inserted, linked) && offset < |pending|
    requires !IsLinked(table, pending[offset], linked)
    ensures TableCovered(table, Dropped(pending, offset), inserted + [pending[offset]], linked)
  {
    hide IsLinked;
    DroppedRows(pending, offset);
    assert pending[offset] in pending;
  }

  lemma InsertedCovers(w: Work, tables: seq<Table>, linked: set<string>, t: nat, offset: nat, columns: seq<nat>)
    requires Shaped(w, tables) && RowsCovered(w, tables, linked) && t < |tables| && offset < |w.pending[t]|
    requires tables[t].name in w.db && !IsLinked(tables[t], w.pending[t][offset], linked)
    ensures RowsCovered(Inserted(w, tables[t], t, offset, columns), tables, linked)
  {
    hide TableCovered, IsLinked, Stored, KeyOf;
    TableCoveredMore(tables[t], w.pending[t], w.inserted[t], linked, offset);
  }

  lemma InsertedReferences(w: Work, tables: seq<Table>, t: nat, offset: nat, columns: seq<nat>)
    requires Shaped(w, tables) && ReferencesHold(w.db, w.inserted, tables) && t < |tables| && offset < |w.pending[t]|
    requires tables[t].name in w.db && Ready(w.db, tables[t], w.pending[t][offset])
    requires Grows(w.db, Inserted(w, tables[t], t, offset, columns).db)
    ensures ReferencesHold(Inserted(w, tables[t], t, offset, columns).db, Inserted(w, tables[t], t, offset, columns).inserted, tables)
  {
    hide Ready, Grows, Stored, KeyOf;
    var v := Inserted(w, tables[t], t, offset, columns);
    forall u, r | 0 <= u < |tables| && r in v.inserted[u] ensures Ready(v.db, tables[u], r) {
      ReadyGrows(w.db, v.db, tables[u], r);
    }
  }

  lemma InsertedIsSound(w: Work, tables: seq<Table>, linked: set<string>, target: Database, t: nat, offset: nat,
                        columns: seq<nat>)
    requires Sound(w, tables, linked, target) && TablesFit(tables) && t < |tables| && offset < |w.pending[t]|
    requires !IsLinked(tables[t], w.pending[t][offset], linked) && Ready(w.db, tables[t], w.pending[t][offset])
    requires KeyOf(tables[t], w.pending[t][offset]) !in w.db[tables[t].name]
    requires columns == PostponedList(tables[t], w.pending[t][offset])
    ensures Sound(Inserted(w, tables[t], t, offset, columns), tables, linked, target)
    ensures Grows(w.db, Inserted(w, tables[t], t, offset, columns).db)
  {
    hide IsLinked, TableHolds, Ready, HasPostponed, Stored, KeyOf, Grows, PostponedList, TableFits, EdgesHold,
      RowsCovered, ReferencesHold;
    InsertedHolds(w, tables, target, t, offset, columns);
    InsertedEdges(w, tables, t, offset, columns);
    InsertedCovers(w, tables, linked, t, offset, columns);
    InsertedReferences(w, tables, t, offset, columns);
  }

  // ---------- the order of insertion ----------

  /** A row that, as inserted, carries the values a key of another row refers to. */
  ghost predicate Provides(tables: seq<Table>, n: Node, key: ForeignKey, row: Row) {
    && n.table < |tables| && tables[n.table].name == key.referencedTable
    && Project(Stored(tables[n.table], n.row), key.referencedColumns) == Project(row, key.columns)
  }

  ghost predicate ProvidedBefore(order: seq<Node>, i: nat, tables: seq<Table>, key: ForeignKey, row: Row)
    requires i <= |order|
  {
    exists j :: 0 <= j < i && Provides(tables, order[j], key, row)
  }

  /** A key's target was in the old database or among the first i rows inserted. */
  ghost predicate FoundEarlier(order: seq<Node>, i: nat, tables: seq<Table>, target: Database, table: Table,
                               key: ForeignKey, row: Row)
    requires i <= |order|
  {
    || HasNull(Project(row, key.columns))
    || Deferred(table, key, row)
    || Exists(target, key.referencedTable, key.referencedColumns, Project(row, key.columns))
    || ProvidedBefore(order, i, tables, key, row)
  }

  /** Each insertion found all its immediate references in the old database or among the rows
      inserted before it. */
  ghost predicate NodeFits(order: seq<Node>, i: nat, tables: seq<Table>, target: Database)
    requires i < |order|
  {
    && IsRow(tables, order[i])
    && forall key :: key in tables[order[i].table].foreignKeys ==>
         FoundEarlier(order, i, tables, target, tables[order[i].table], key, order[i].row)
  }

  ghost predicate OrderFits(order: seq<Node>, tables: seq<Table>, target: Database) {
    forall i :: 0 <= i < |order| ==> NodeFits(order, i, tables, target)
  }

  ghost predicate OrderCovers(order: seq<Node>, inserted: seq<seq<Row>>) {
    && (forall n :: n in order ==> n.table < |inserted| && n.row in inserted[n.table])
    && forall t, r :: 0 <= t < |inserted| && r in inserted[t] ==> Node(t, r) in order
  }

  lemma FoundInTable(now: map<Key, Row>, before: map<Key, Row>, table: Table, inserted: seq<Row>,
                     k: Key) returns (r: Row)
    requires TableHolds(now, before, table, inserted, {}) && k in now && k !in before
    ensures r in inserted && now[k] == Stored(table, r)
  {
    r :| r in inserted && KeyOf(table, r) == k;
  }

  /** What a lookup in the transaction's database finds was there before or has been inserted. */
  lemma ExistsCameFrom(w: Work, tables: seq<Table>, linked: set<string>, target: Database, order: seq<Node>,
                       key: ForeignKey, row: Row)
    requires Sound(w, tables, linked, target) && OrderCovers(order, w.inserted)
    requires Exists(w.db, key.referencedTable, key.referencedColumns, Project(row, key.columns))
    ensures Exists(target, key.referencedTable, key.referencedColumns, Project(row, key.columns))
         || ProvidedBefore(order, |order|, tables, key, row)
  {
    hide RowsCovered, ReferencesHold, EdgesHold, Stored, KeyOf, TableHolds;
    var name, values := key.referencedTable, Project(row, key.columns);
    var k :| k in w.db[name] && Project(w.db[name][k], key.referencedColumns) == values;
    if t :| 0 <= t < |tables| && tables[t].name == name {
      assert TableHolds(w.db[name], target[name], tables[t], w.inserted[t], NonePatched(|tables|)[t]);
      TableKeeps(w.db[name], target[name], tables[t], w.inserted[t], {});
      if k !in target[name] {
        var r := FoundInTable(w.db[name], target[name], tables[t], w.inserted[t], k);
        var j :| 0 <= j < |order| && order[j] == Node(t, r);
        assert Provides(tables, order[j], key, row);
      }
    } else {
      assert w.db[name] == target[name];
    }
  }

  lemma TableKeeps(now: map<Key, Row>, before: map<Key, Row>, table: Table, inserted: seq<Row>, patched: set<Row>)
    requires TableHolds(now, before, table, inserted, patched)
    ensures forall k :: k in before ==> k in now && now[k] == before[k]
  {
  }

  lemma ProvidedStays(order: seq<Node>, n: Node, i: nat, tables: seq<Table>, key: ForeignKey, row: Row)
    requires i <= |order| && ProvidedBefore(order, i, tables, key, row)
    ensures ProvidedBefore(order + [n], i, tables, key, row)
  {
    hide Provides;
    var j :| 0 <= j < i && Provides(tables, order[j], key, row);
    assert (order + [n])[j] == order[j];
  }

  lemma OrderNext(w: Work, tables: seq<Table>, linked: set<string>, target: Database, order: seq<Node>, t: nat,
                  row: Row)
    requires Sound(w, tables, linked, target) && OrderCovers(order, w.inserted) && OrderFits(order, tables, target)
    requires IsRow(tables, Node(t, row)) && Ready(w.db, tables[t], row)
    ensures OrderFits(order + [Node(t, row)], tables, target)
  {
    hide Sound, Exists, Deferred, ProvidedBefore;
    var n := Node(t, row);
    var more := order + [n];
    forall i | 0 <= i < |more| ensures NodeFits(more, i, tables, target) {
      assert i < |order| ==> more[i] == order[i] && NodeFits(order, i, tables, target);
      var table, r := tables[more[i].table], more[i].row;
      forall key | key in table.foreignKeys ensures FoundEarlier(more, i, tables, target, table, key, r) {
        if i < |order| {
          assert FoundEarlier(order, i, tables, target, table, key, r);
          if ProvidedBefore(order, i, tables, key, r) { ProvidedStays(order, n, i, tables, key, r); }
        } else {
          assert KeySatisfied(w.db, table, key, r);
          if Exists(w.db, key.referencedTable, key.referencedColumns, Project(r, key.columns)) {
            ExistsCameFrom(w, tables, linked, target, order, key, r);
            if ProvidedBefore(order, i, tables, key, r) { ProvidedStays(order, n, i, tables, key, r); }
          }
        }
      }
    }
  }
}
