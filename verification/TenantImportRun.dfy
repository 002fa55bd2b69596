/** The import's loops: per row, per table, pass after pass, then the patches. */
module TenantImportRun {
  import opened Common
  import opened TenantTables
  import opened TenantImport

  datatype Outcome =
    | Imported(inserted: seq<seq<Row>>)
    | IdCollision(node: Node)
    | NotNullViolation(node: Node)
    | NoProgress(left: Work)

  /** A table whose columns forbid NULL refuses a row that has one. */
  predicate NotNullHolds(table: Table, row: Row) {
    forall c :: 0 <= c < |table.nullable| && !table.nullable[c] ==> Cell(row, c) != None
  }

  /** What holds at every point of the loops; order lists the rows inserted so far. */
  ghost predicate Running(w: Work, order: seq<Node>, tables: seq<Table>, linked: set<string>, target: Database) {
    && Sound(w, tables, linked, target)
    && OrderCovers(order, w.inserted)
    && OrderFits(order, tables, target)
    && RequiredFilled(order, tables)
  }

  /** No row inserted so far has NULL in a column that forbids it. */
  ghost predicate RequiredFilled(order: seq<Node>, tables: seq<Table>) {
    forall n :: n in order && n.table < |tables| ==> RowFilled(tables[n.table], n.row)
  }

  ghost predicate RowFilled(table: Table, row: Row) {
    forall c :: 0 <= c < |table.nullable| && !table.nullable[c] ==> c < |row| && row[c] != None
  }

  ghost predicate IsPending(w: Work, tables: seq<Table>, n: Node) {
    IsRow(tables, n) && n.table < |w.pending| && n.row in w.pending[n.table]
  }

  /** A pending row that is not skipped as a linked user. */
  ghost predicate ToInsert(w: Work, tables: seq<Table>, linked: set<string>, n: Node) {
    IsPending(w, tables, n) && !IsLinked(tables[n.table], n.row, linked)
  }

  /** Why the import gave up on a row. */
  ghost predicate Explains(failure: Outcome, w: Work, tables: seq<Table>, linked: set<string>) {
    match failure
    case IdCollision(n) =>
      && ToInsert(w, tables, linked, n) && tables[n.table].name in w.db
      && KeyOf(tables[n.table], n.row) in w.db[tables[n.table].name]
    case NotNullViolation(n) => ToInsert(w, tables, linked, n) && !NotNullHolds(tables[n.table], n.row)
    case _ => false
  }

  /** None of the first n rows of a table can be inserted or skipped. */
  ghost predicate StuckUpTo(w: Work, tables: seq<Table>, linked: set<string>, t: nat, n: nat)
    requires Shaped(w, tables) && t < |tables| && n <= |w.pending[t]|
  {
    forall i :: 0 <= i < n ==> !IsLinked(tables[t], w.pending[t][i], linked) && !Ready(w.db, tables[t], w.pending[t][i])
  }

  ghost predicate Stuck(w: Work, tables: seq<Table>, linked: set<string>, t: nat)
    requires Shaped(w, tables) && t < |tables|
  {
    StuckUpTo(w, tables, linked, t, |w.pending[t]|)
  }

  // ---------- one row ----------

  /** The row's keys, in order: a NULL key needs nothing, a nullable reference into its own table
      is postponed, any other must be found; the first that is not found ends the loop. */
  method CheckRow(db: Database, table: Table, row: Row) returns (ready: bool, columns: seq<nat>)
    requires TableFits(table)
    ensures ready <==> Ready(db, table, row)
    ensures ready ==> columns == PostponedList(table, row)
  {
    hide Exists;
    ready, columns := true, [];
    var i := 0;
    while i < |table.foreignKeys|
      invariant 0 <= i <= |table.foreignKeys|
      invariant ready
      invariant forall j :: 0 <= j < i ==> KeySatisfied(db, table, table.foreignKeys[j], row)
      invariant columns == PostponedBelow(table, row, i)
    {
      var key := table.foreignKeys[i];
      assert KeyFits(table, key);
      var values := Project(row, key.columns);
      if HasNull(values) {
      } else if key.referencedTable == table.name && forall c :: c in key.columns ==> table.nullable[c] {
        columns := columns + key.columns;
      } else if !Exists(db, key.referencedTable, key.referencedColumns, values) {
        ready := false;
        assert !KeySatisfied(db, table, table.foreignKeys[i], row);
        return;
      }
      i := i + 1;
    }
    forall key | key in table.foreignKeys ensures KeySatisfied(db, table, key, row) {
    }
  }

  // ---------- one table ----------

  lemma RemainingDrops(pending: seq<seq<Row>>, t: nat, rows: seq<Row>, n: nat)
    requires t < |pending| && n <= |pending| && |rows| + 1 == |pending[t]|
    ensures Remaining(pending[t := rows], n) + (if t < n then 1 else 0) == Remaining(pending, n)
  {
    if n > 0 {
      RemainingDrops(pending, t, rows, n - 1);
    }
  }

  lemma RemainingZero(pending: seq<seq<Row>>, n: nat)
    requires n <= |pending|
    ensures Remaining(pending, n) == 0 <==> forall t :: 0 <= t < n ==> pending[t] == []
  {
  }

  /** Inserting a ready row keeps everything that held. */
  lemma InsertedRuns(w: Work, order: seq<Node>, tables: seq<Table>, linked: set<string>, target: Database,
                     t: nat, offset: nat, columns: seq<nat>)
    requires Running(w, order, tables, linked, target) && TablesFit(tables) && t < |tables| && offset < |w.pending[t]|
    requires !IsLinked(tables[t], w.pending[t][offset], linked) && Ready(w.db, tables[t], w.pending[t][offset])
    requires tables[t].name in w.db && KeyOf(tables[t], w.pending[t][offset]) !in w.db[tables[t].name]
    requires columns == PostponedList(tables[t], w.pending[t][offset]) && NotNullHolds(tables[t], w.pending[t][offset])
    ensures Running(Inserted(w, tables[t], t, offset, columns), order + [Node(t, w.pending[t][offset])], tables, linked, target)
    ensures Grows(w.db, Inserted(w, tables[t], t, offset, columns).db)
  {
    hide DatabaseHolds, ReferencesHold, EdgesHold, OrderFits, Ready, IsLinked, PostponedList, KeyOf, Grows,
      Stored, TableFits;
    InsertedIsSound(w, tables, linked, target, t, offset, columns);
    OrderNext(w, tables, linked, target, order, t, w.pending[t][offset]);
    var v := Inserted(w, tables[t], t, offset, columns);
    var row := w.pending[t][offset];
    var more := order + [Node(t, row)];
    forall u, r | 0 <= u < |v.inserted| && r in v.inserted[u] ensures Node(u, r) in more {
      if r in w.inserted[u] {
        assert Node(u, r) in order;
      } else {
        assert more[|order|] == Node(u, r);
      }
    }
  }

  lemma NameInDatabase(w: Work, tables: seq<Table>, linked: set<string>, target: Database, t: nat)
    requires Sound(w, tables, linked, target) && t < |tables|
    ensures tables[t].name in w.db
  {
  }

  lemma PendingIsRow(w: Work, tables: seq<Table>, linked: set<string>, target: Database, t: nat, offset: nat)
    requires Sound(w, tables, linked, target) && t < |tables| && offset < |w.pending[t]|
    ensures IsPending(w, tables, Node(t, w.pending[t][offset]))
  {
    assert w.pending[t][offset] in w.pending[t];
  }

  lemma GrowsFurther(a: Database, b: Database, c: Database)
    requires Grows(a, b) && Grows(b, c)
    ensures Grows(a, c)
  {
  }

  /** One table of one pass. */
  method SweepTable(tables: seq<Table>, linked: set<string>, ghost target: Database, t: nat, start: Work,
                    ghost begun: seq<Node>)
    returns (w: Work, progress: nat, failure: Option<Outcome>, ghost order: seq<Node>)
    requires TablesFit(tables) && t < |tables| && Running(start, begun, tables, linked, target)
    ensures Running(w, order, tables, linked, target)
    ensures Remaining(w.pending, |tables|) + progress == Remaining(start.pending, |tables|)
    ensures Grows(start.db, w.db)
    ensures failure.Some? ==> Explains(failure.value, w, tables, linked)
    ensures failure.None? && progress == 0 ==> w == start && Stuck(w, tables, linked, t)
  {
    hide DatabaseHolds, RowsCovered, ReferencesHold, EdgesHold, OrderFits, OrderCovers, Ready, IsLinked,
      PostponedList, KeyOf, Grows, Stored, TableFits, Exists;
    w, progress, order, failure := start, 0, begun, None;
    GrowsSelf(w.db);
    var offset := 0;
    while offset < |w.pending[t]|
      invariant Running(w, order, tables, linked, target)
      invariant offset <= |w.pending[t]|
      invariant Remaining(w.pending, |tables|) + progress == Remaining(start.pending, |tables|)
      invariant Grows(start.db, w.db)
      invariant progress == 0 ==> w == start && StuckUpTo(w, tables, linked, t, offset)
      decreases |w.pending[t]| - offset
    {
      var table, row := tables[t], w.pending[t][offset];
      RemainingDrops(w.pending, t, Dropped(w.pending[t], offset), |tables|);
      if IsLinked(table, row, linked) {
        SplicedRuns(w, order, tables, linked, target, t, offset);
        w := Spliced(w, t, offset);
        progress := progress + 1;
        continue;
      }
      var ready, columns := CheckRow(w.db, table, row);
      if !ready {
        offset := offset + 1;
        continue;
      }
      NameInDatabase(w, tables, linked, target, t);
      PendingIsRow(w, tables, linked, target, t, offset);
      if KeyOf(table, row) in w.db[table.name] {
        failure := Some(IdCollision(Node(t, row)));
        return;
      }
      if !NotNullHolds(table, row) {
        failure := Some(NotNullViolation(Node(t, row)));
        return;
      }
      InsertedRuns(w, order, tables, linked, target, t, offset, columns);
      GrowsFurther(start.db, w.db, Inserted(w, table, t, offset, columns).db);
      w := Inserted(w, table, t, offset, columns);
      order := order + [Node(t, row)];
      progress := progress + 1;
    }
  }

  lemma GrowsSelf(db: Database)
    ensures Grows(db, db)
  {
  }

  lemma SplicedRuns(w: Work, order: seq<Node>, tables: seq<Table>, linked: set<string>, target: Database, t: nat,
                    offset: nat)
    requires Running(w, order, tables, linked, target) && t < |tables| && offset < |w.pending[t]|
    requires IsLinked(tables[t], w.pending[t][offset], linked)
    ensures Running(Spliced(w, t, offset), order, tables, linked, target)
  {
    hide Sound, OrderFits, IsLinked;
    assert Shaped(w, tables) by { ShapedIfSound(w, tables, linked, target); }
    SplicedIsSound(w, tables, linked, target, t, offset);
  }

  lemma ShapedIfSound(w: Work, tables: seq<Table>, linked: set<string>, target: Database)
    requires Sound(w, tables, linked, target)
    ensures Shaped(w, tables)
  {
  }

  // ---------- passes ----------

  ghost predicate AllStuck(w: Work, tables: seq<Table>, linked: set<string>, n: nat)
    requires Shaped(w, tables) && n <= |tables|
  {
    forall t :: 0 <= t < n ==> Stuck(w, tables, linked, t)
  }

  method Pass(tables: seq<Table>, linked: set<string>, ghost target: Database, start: Work, ghost begun: seq<Node>)
    returns (w: Work, progress: nat, failure: Option<Outcome>, ghost order: seq<Node>)
    requires TablesFit(tables) && Running(start, begun, tables, linked, target)
    ensures Running(w, order, tables, linked, target)
    ensures Remaining(w.pending, |tables|) + progress == Remaining(start.pending, |tables|)
    ensures Grows(start.db, w.db)
    ensures failure.Some? ==> Explains(failure.value, w, tables, linked)
    ensures failure.None? && progress == 0 ==> w == start && AllStuck(w, tables, linked, |tables|)
  {
    hide DatabaseHolds, RowsCovered, ReferencesHold, EdgesHold, OrderFits, OrderCovers, Ready, IsLinked, Grows,
      TablesFit, Explains, Stuck;
    w, progress, order, failure := start, 0, begun, None;
    GrowsSelf(w.db);
    for t := 0 to |tables|
      invariant Running(w, order, tables, linked, target)
      invariant Remaining(w.pending, |tables|) + progress == Remaining(start.pending, |tables|)
      invariant Grows(start.db, w.db)
      invariant failure.None? && (progress == 0 ==> w == start && AllStuck(w, tables, linked, t))
    {
      ghost var before := w;
      var more: nat;
      w, more, failure, order := SweepTable(tables, linked, target, t, w, order);
      GrowsFurther(start.db, before.db, w.db);
      progress := progress + more;
      if failure.Some? { return; }
    }
  }

  // ---------- the patches ----------

  /** UPDATE of the postponed columns of one row, of which there are some. */
  function Patched(stored: Row, row: Row, columns: seq<nat>): Row {
    seq(|stored|, i requires 0 <= i < |stored| => if i in columns then Cell(row, i) else stored[i])
  }

  function Patch(db: Database, table: Table, e: Edge): Database
    requires e.columns != []
    requires table.name in db && KeyOf(table, e.row) in db[table.name]
  {
    var k := KeyOf(table, e.row);
    db[table.name := db[table.name][k := Patched(db[table.name][k], e.row, e.columns)]]
  }

  lemma PatchedIsRow(table: Table, row: Row, patched: set<Row>)
    ensures Patched(Image(table, row, patched), row, PostponedList(table, row)) == row
  {
    hide Postponed, PostponedList;
    PostponedListHolds(table, row);
  }

  lemma UnpostponedIsRow(table: Table, row: Row)
    requires !HasPostponed(table, row)
    ensures Stored(table, row) == row
  {
    hide Deferred;
    forall i: nat ensures !Postponed(table, row, i) {
      assert !HasPostponed(table, row);
    }
  }

  lemma TableHoldsPatched(now: map<Key, Row>, before: map<Key, Row>, table: Table, inserted: seq<Row>,
                          patched: set<Row>, row: Row)
    requires TableHolds(now, before, table, inserted, patched) && row in inserted
    ensures KeyOf(table, row) in now
    ensures TableHolds(now[KeyOf(table, row) := row], before, table, inserted, patched + {row})
  {
    hide Stored, KeyOf;
  }

  lemma PatchHolds(db: Database, w: Work, tables: seq<Table>, target: Database, patched: seq<set<Row>>, e: Edge)
    requires Shaped(w, tables) && |patched| == |tables| && NamesDistinct(tables)
    requires DatabaseHolds(db, w.inserted, tables, target, patched) && EdgeFits(e, tables, w.inserted)
    ensures e.columns != [] && tables[e.table].name in db && KeyOf(tables[e.table], e.row) in db[tables[e.table].name]
    ensures DatabaseHolds(Patch(db, tables[e.table], e), w.inserted, tables, target, patched[e.table := patched[e.table] + {e.row}])
  {
    hide TableHolds, KeyOf, Image, Patched, PostponedList;
    var t := e.table;
    var now, before := db[tables[t].name], target[tables[t].name];
    TableHoldsPatched(now, before, tables[t], w.inserted[t], patched[t], e.row);
    assert now[KeyOf(tables[t], e.row)] == Image(tables[t], e.row, patched[t]) by {
      ImageHeld(now, before, tables[t], w.inserted[t], patched[t], e.row);
    }
    PatchedIsRow(tables[t], e.row, patched[t]);
    var next, more := Patch(db, tables[t], e), patched[t := patched[t] + {e.row}];
    forall u | 0 <= u < |tables|
      ensures tables[u].name in target
      ensures TableHolds(next[tables[u].name], target[tables[u].name], tables[u], w.inserted[u], more[u])
    {
      if u != t {
        assert tables[u].name != tables[t].name;
      }
    }
  }

  lemma ImageHeld(now: map<Key, Row>, before: map<Key, Row>, table: Table, inserted: seq<Row>, patched: set<Row>,
                  row: Row)
    requires TableHolds(now, before, table, inserted, patched) && row in inserted
    ensures KeyOf(table, row) in now && now[KeyOf(table, row)] == Image(table, row, patched)
  {
  }

  /** Old contents plus exactly the inserted rows, complete. */
  ghost predicate Published(db: Database, inserted: seq<seq<Row>>, tables: seq<Table>, target: Database)
    requires |inserted| == |tables|
  {
    && db.Keys == target.Keys
    && (forall name :: name in target && (forall t :: 0 <= t < |tables| ==> tables[t].name != name) ==> db[name] == target[name])
    && forall t :: 0 <= t < |tables| ==>
         tables[t].name in target && TablePublished(db[tables[t].name], target[tables[t].name], tables[t], inserted[t])
  }

  ghost predicate TablePublished(now: map<Key, Row>, before: map<Key, Row>, table: Table, inserted: seq<Row>) {
    && (forall k :: k in before ==> k in now && now[k] == before[k])
    && (forall r :: r in inserted ==> KeyOf(table, r) !in before && KeyOf(table, r) in now && now[KeyOf(table, r)] == r)
    && (forall k :: k in now ==> k in before || exists r :: r in inserted && KeyOf(table, r) == k)
  }

  lemma AllPatchedIsPublished(now: map<Key, Row>, before: map<Key, Row>, table: Table, inserted: seq<Row>,
                              patched: set<Row>)
    requires TableHolds(now, before, table, inserted, patched)
    requires forall r :: r in inserted && HasPostponed(table, r) ==> r in patched
    ensures TablePublished(now, before, table, inserted)
  {
    hide HasPostponed, KeyOf, Stored;
    forall r | r in inserted ensures Image(table, r, patched) == r {
      if r !in patched {
        UnpostponedIsRow(table, r);
      }
    }
  }

  ghost predicate PatchedUpTo(w: Work, tables: seq<Table>, patched: seq<set<Row>>, n: nat)
    requires Shaped(w, tables) && |patched| == |tables| && n <= |w.edges|
  {
    forall i :: 0 <= i < n ==> w.edges[i].table < |tables| && w.edges[i].row in patched[w.edges[i].table]
  }

  lemma AllPatched(db: Database, w: Work, tables: seq<Table>, target: Database, patched: seq<set<Row>>)
    requires Shaped(w, tables) && |patched| == |tables| && EdgesHold(w, tables)
    requires DatabaseHolds(db, w.inserted, tables, target, patched) && PatchedUpTo(w, tables, patched, |w.edges|)
    ensures Published(db, w.inserted, tables, target)
  {
    hide HasPostponed, TableHolds, TablePublished, EdgeFits;
    forall t | 0 <= t < |tables|
      ensures TablePublished(db[tables[t].name], target[tables[t].name], tables[t], w.inserted[t])
    {
      forall r | r in w.inserted[t] && HasPostponed(tables[t], r) ensures r in patched[t] {
        var e :| e in w.edges && IsEdgeOf(e, t, r);
      }
      AllPatchedIsPublished(db[tables[t].name], target[tables[t].name], tables[t], w.inserted[t], patched[t]);
    }
  }

  /** An inserted row whose patch lists a column twice. */
  ghost predicate PatchRepeats(n: Node, inserted: seq<seq<Row>>, tables: seq<Table>) {
    n.table < |tables| && n.table < |inserted| && n.row in inserted[n.table] && RepeatsColumn(tables[n.table], n.row)
  }

  /** One UPDATE per inserted row with postponed columns. PostgreSQL refuses one that sets a column
      twice, which ends the transaction. */
  method ApplyPatches(w: Work, tables: seq<Table>, linked: set<string>, ghost target: Database)
    returns (db: Database, refused: Option<Node>)
    requires Sound(w, tables, linked, target) && TablesFit(tables)
    ensures refused.None? ==> Published(db, w.inserted, tables, target)
    ensures refused.None? ==> forall n :: !PatchRepeats(n, w.inserted, tables)
    ensures refused.Some? ==> PatchRepeats(refused.value, w.inserted, tables)
  {
    hide RowsCovered, ReferencesHold, DatabaseHolds, EdgeFits, Published, Patch, TableFits, KeyOf, PatchRepeats;
    db, refused := w.db, None;
    ghost var patched := NonePatched(|tables|);
    for i := 0 to |w.edges|
      invariant |patched| == |tables| && DatabaseHolds(db, w.inserted, tables, target, patched)
      invariant PatchedUpTo(w, tables, patched, i)
      invariant refused.None? && forall j :: 0 <= j < i ==> NoRepeats(w.edges[j].columns)
    {
      var e := w.edges[i];
      EdgeInRange(e, w, tables);
      if !NoRepeats(e.columns) {
        EdgeRepeats(e, w, tables);
        refused := Some(Node(e.table, e.row));
        return;
      }
      PatchHolds(db, w, tables, target, patched, e);
      db := Patch(db, tables[e.table], e);
      patched := patched[e.table := patched[e.table] + {e.row}];
    }
    AllPatched(db, w, tables, target, patched);
    NothingRepeats(w, tables);
  }

  lemma EdgeRepeats(e: Edge, w: Work, tables: seq<Table>)
    requires Shaped(w, tables) && EdgeFits(e, tables, w.inserted) && !NoRepeats(e.columns)
    ensures PatchRepeats(Node(e.table, e.row), w.inserted, tables)
  {
  }

  lemma NothingRepeats(w: Work, tables: seq<Table>)
    requires Shaped(w, tables) && EdgesHold(w, tables) && TablesFit(tables)
    requires forall j :: 0 <= j < |w.edges| ==> NoRepeats(w.edges[j].columns)
    ensures forall n :: !PatchRepeats(n, w.inserted, tables)
  {
    hide PostponedList, TableFits, NoRepeats, EdgesHold;
    forall t, r | 0 <= t < |tables| && r in w.inserted[t] ensures !RepeatsColumn(tables[t], r) {
      RowRepeatsNothing(w, tables, t, r);
    }
  }

  lemma RowRepeatsNothing(w: Work, tables: seq<Table>, t: nat, r: Row)
    requires Shaped(w, tables) && EdgesHold(w, tables) && t < |tables| && r in w.inserted[t] && TableFits(tables[t])
    requires forall j :: 0 <= j < |w.edges| ==> NoRepeats(w.edges[j].columns)
    ensures NoRepeats(PostponedList(tables[t], r))
  {
    hide HasPostponed, PostponedList, TableFits, NoRepeats;
    PostponedMeansColumns(tables[t], r);
    if HasPostponed(tables[t], r) {
      var e :| e in w.edges && IsEdgeOf(e, t, r);
      assert EdgeFits(e, tables, w.inserted);
    } else {
      EmptyRepeatsNothing(PostponedList(tables[t], r));
    }
  }

  lemma EmptyRepeatsNothing(columns: seq<nat>)
    requires columns == []
    ensures NoRepeats(columns)
  {
  }

  lemma EdgeInRange(e: Edge, w: Work, tables: seq<Table>)
    requires Shaped(w, tables) && EdgesHold(w, tables) && e in w.edges
    ensures e.table < |tables| && EdgeFits(e, tables, w.inserted)
  {
  }
}
