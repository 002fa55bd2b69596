/** When the import commits, when it gives up, and what every reference looks like afterwards. */
module TenantImportTheorems {
  import opened Common
  import opened TenantTables
  import opened TenantImport
  import opened TenantImportRun
  import opened TenantClosure
  import opened TenantImportTransaction

  // ---------- what the tables promise ----------

  /** Users are referred to by their id alone. */
  ghost predicate UsersById(tables: seq<Table>) {
    forall t, key :: 0 <= t < |tables| && key in tables[t].foreignKeys && key.referencedTable == "User" ==>
      key.referencedColumns == [USER_ID]
  }

  ghost predicate RefersTo(tables: seq<Table>, t: int, key: ForeignKey, u: int) {
    0 <= t < |tables| && 0 <= u < |tables| && key in tables[t].foreignKeys && key.referencedTable == tables[u].name
  }

  /** No key refers to a column that an insertion may leave NULL for now. */
  ghost predicate StableColumns(tables: seq<Table>) {
    forall t, u, key :: RefersTo(tables, t, key, u) ==> ColumnsRequired(tables[u], key.referencedColumns)
  }

  ghost predicate ColumnsRequired(table: Table, columns: seq<nat>) {
    forall c :: c in columns ==> c < |table.nullable| && !table.nullable[c]
  }

  /** Every key refers to a primary key. */
  ghost predicate PrimaryReferences(tables: seq<Table>) {
    forall t, u, key :: RefersTo(tables, t, key, u) ==> key.referencedColumns == tables[u].primaryKey
  }

  lemma PrimaryIsStable(tables: seq<Table>)
    requires TablesFit(tables) && PrimaryReferences(tables)
    ensures StableColumns(tables)
  {
  }

  /** The transaction's result committed. */
  ghost predicate Commits(inserted: seq<seq<Row>>, db: Database, target: Database, tables: seq<Table>,
                          users: seq<string>) {
    && TablesFit(tables) && TargetFits(target, tables)
    && TransactionHolds(Committed(inserted), db, target, tables, users)
  }

  // ---------- references after a commit ----------

  lemma PublishedGrows(db: Database, inserted: seq<seq<Row>>, tables: seq<Table>, target: Database)
    requires |inserted| == |tables| && Published(db, inserted, tables, target)
    ensures Grows(target, db)
  {
    forall name | name in target
      ensures name in db && forall k :: k in target[name] ==> k in db[name] && db[name][k] == target[name][k]
    {
      if t :| 0 <= t < |tables| && tables[t].name == name {
        assert TablePublished(db[name], target[name], tables[t], inserted[t]);
      } else {
        assert db[name] == target[name];
      }
    }
  }

  lemma LinkedFound(target: Database, linked: set<string>, value: Value)
    requires UsersPresent(target, linked) && NamesLinked(value, linked)
    ensures Exists(target, "User", [USER_ID], [value])
  {
    hide Exists;
    assert UserExists(target, value.value);
  }

  lemma InsertedFound(db: Database, inserted: seq<seq<Row>>, tables: seq<Table>, target: Database, t: nat, q: Row,
                      columns: seq<nat>)
    requires |inserted| == |tables| && Published(db, inserted, tables, target) && t < |tables| && q in inserted[t]
    ensures Exists(db, tables[t].name, columns, Project(q, columns))
  {
    hide KeyOf, Project;
    assert TablePublished(db[tables[t].name], target[tables[t].name], tables[t], inserted[t]);
    assert db[tables[t].name][KeyOf(tables[t], q)] == q;
  }

  /** After a commit every reference of every inserted row, the postponed ones included, resolves. */
  lemma EveryReferenceResolves(inserted: seq<seq<Row>>, db: Database, target: Database, tables: seq<Table>,
                               users: seq<string>, t: nat, row: Row, key: ForeignKey)
    requires Commits(inserted, db, target, tables, users) && UsersById(tables)
    requires |inserted| == |tables| && t < |tables| && row in inserted[t] && key in tables[t].foreignKeys
    requires !HasNull(Project(row, key.columns))
    ensures Exists(db, key.referencedTable, key.referencedColumns, Project(row, key.columns))
  {
    hide Exists, Published, InsertedIn, Grows, KeyFits, UsersPresent;
    var linked, values := SetOf(users), Project(row, key.columns);
    PublishedGrows(db, inserted, tables, target);
    assert KeyCloses(tables, key, row, linked) by { ClosesAt(tables, linked, t, row, key); }
    KeyLengths(tables, t, key);
    if RefersToLinked(key, values, linked) {
      LinkedFound(target, linked, values[0]);
      assert values == [values[0]];
      ExistsGrows(target, db, "User", [USER_ID], values);
    } else {
      var u, q :| 0 <= u < |tables| && tables[u].name == key.referencedTable && q in tables[u].rows
        && Project(q, key.referencedColumns) == values;
      assert Project(q, key.referencedColumns)[0] == values[0];
      assert !IsLinked(tables[u], q, linked);
      InsertedFound(db, inserted, tables, target, u, q, key.referencedColumns);
    }
  }

  lemma ClosesAt(tables: seq<Table>, linked: set<string>, t: nat, row: Row, key: ForeignKey)
    requires Closed(tables, linked) && t < |tables| && row in tables[t].rows && key in tables[t].foreignKeys
    ensures KeyCloses(tables, key, row, linked)
  {
    hide KeyCloses;
    assert TableCloses(tables, tables[t], linked) && RowCloses(tables, tables[t], row, linked);
  }

  lemma KeyLengths(tables: seq<Table>, t: nat, key: ForeignKey)
    requires TablesFit(tables) && t < |tables| && key in tables[t].foreignKeys
    ensures |key.columns| == |key.referencedColumns| > 0
  {
    assert KeyFits(tables[t], key);
  }

  // ---------- dependencies ----------

  /** p refers, not postponably, to q. */
  ghost predicate DependsBy(tables: seq<Table>, key: ForeignKey, p: Node, q: Node) {
    && p.table < |tables| && q.table < |tables| && tables[q.table].name == key.referencedTable
    && !HasNull(Project(p.row, key.columns)) && !Deferred(tables[p.table], key, p.row)
    && Project(q.row, key.referencedColumns) == Project(p.row, key.columns)
  }

  ghost predicate Depends(tables: seq<Table>, p: Node, q: Node) {
    p.table < |tables| && exists key :: key in tables[p.table].foreignKeys && DependsBy(tables, key, p, q)
  }

  /** A row the import has to insert. */
  ghost predicate Imports(tables: seq<Table>, linked: set<string>, n: Node) {
    IsRow(tables, n) && !IsLinked(tables[n.table], n.row, linked)
  }

  /** Rows to insert, each depending on the next. */
  ghost predicate IsChain(tables: seq<Table>, linked: set<string>, path: seq<Node>) {
    && (forall i :: 0 <= i < |path| ==> Imports(tables, linked, path[i]))
    && forall i :: 0 < i < |path| ==> Depends(tables, path[i - 1], path[i])
  }

  ghost predicate IsCycle(tables: seq<Table>, linked: set<string>, path: seq<Node>) {
    |path| > 1 && path[0] == path[|path| - 1] && IsChain(tables, linked, path)
  }

  ghost predicate Cyclic(tables: seq<Table>, linked: set<string>) {
    exists path :: IsCycle(tables, linked, path)
  }

  // ---------- no progress means a cycle ----------

  /** A dependency cycle all of whose rows are still to be inserted. */
  ghost predicate PendingCycle(w: Work, tables: seq<Table>, linked: set<string>) {
    exists path :: IsCycle(tables, linked, path) && forall n :: n in path ==> PendingNode(w, n)
  }

  ghost predicate PendingNode(w: Work, n: Node) {
    n.table < |w.pending| && n.row in w.pending[n.table]
  }

  /** What the loops stopped in when no row moved. */
  ghost predicate Stopped(w: Work, order: seq<Node>, tables: seq<Table>, linked: set<string>, target: Database) {
    && TablesFit(tables) && Running(w, order, tables, linked, target) && NothingMoves(w, tables, linked)
    && Closed(tables, linked) && UsersPresent(target, linked)
  }

  lemma SoundGrows(w: Work, tables: seq<Table>, linked: set<string>, target: Database)
    requires Sound(w, tables, linked, target)
    ensures Grows(target, w.db)
  {
    forall name | name in target
      ensures name in w.db && forall k :: k in target[name] ==> k in w.db[name] && w.db[name][k] == target[name][k]
    {
      if t :| 0 <= t < |tables| && tables[t].name == name {
        assert TableHolds(w.db[name], target[name], tables[t], w.inserted[t], NonePatched(|tables|)[t]);
      } else {
        assert w.db[name] == target[name];
      }
    }
  }

  lemma StoredKeepsRequired(table: Table, row: Row, columns: seq<nat>)
    requires ColumnsRequired(table, columns)
    ensures Project(Stored(table, row), columns) == Project(row, columns)
  {
    forall i | 0 <= i < |columns| ensures Cell(Stored(table, row), columns[i]) == Cell(row, columns[i]) {
      assert columns[i] in columns;
      if Postponed(table, row, columns[i]) {
        PostponedIsNullable(table, row, columns[i]);
      }
    }
  }

  lemma InsertedSoFarFound(w: Work, tables: seq<Table>, linked: set<string>, target: Database, u: nat, q: Row,
                           columns: seq<nat>)
    requires Sound(w, tables, linked, target) && u < |tables| && q in w.inserted[u]
    requires ColumnsRequired(tables[u], columns)
    ensures Exists(w.db, tables[u].name, columns, Project(q, columns))
  {
    hide RowsCovered, ReferencesHold, EdgesHold, KeyOf, Stored, ColumnsRequired, Project;
    StoredKeepsRequired(tables[u], q, columns);
    assert TableHolds(w.db[tables[u].name], target[tables[u].name], tables[u], w.inserted[u], NonePatched(|tables|)[u]);
    var k := KeyOf(tables[u], q);
    assert w.db[tables[u].name][k] == Stored(tables[u], q);
  }

  lemma UnreadyKey(db: Database, table: Table, row: Row) returns (key: ForeignKey)
    requires !Ready(db, table, row)
    ensures key in table.foreignKeys && !KeySatisfied(db, table, key, row)
  {
    key :| key in table.foreignKeys && !KeySatisfied(db, table, key, row);
  }

  lemma PendingIsStuck(w: Work, order: seq<Node>, tables: seq<Table>, linked: set<string>, target: Database, p: Node)
    requires Stopped(w, order, tables, linked, target) && PendingNode(w, p)
    ensures Imports(tables, linked, p) && !Ready(w.db, tables[p.table], p.row)
  {
    hide Sound, OrderFits, OrderCovers, Ready, IsLinked, Closed, UsersPresent;
    assert RowsCovered(w, tables, linked) by { CoveredIfSound(w, tables, linked, target); }
    assert Stuck(w, tables, linked, p.table);
    var i :| 0 <= i < |w.pending[p.table]| && w.pending[p.table][i] == p.row;
  }

  lemma CoveredIfSound(w: Work, tables: seq<Table>, linked: set<string>, target: Database)
    requires Sound(w, tables, linked, target)
    ensures Shaped(w, tables) && RowsCovered(w, tables, linked)
  {
  }

  /** A reference that closes but is not found yet points to a row that is still pending. */
  lemma UnsatisfiedPointsToPending(w: Work, tables: seq<Table>, linked: set<string>, target: Database, p: Node,
                                   key: ForeignKey)
    returns (q: Node)
    requires TablesFit(tables) && Sound(w, tables, linked, target) && UsersPresent(target, linked)
    requires UsersById(tables) && StableColumns(tables)
    requires IsRow(tables, p) && key in tables[p.table].foreignKeys && KeyCloses(tables, key, p.row, linked)
    requires !KeySatisfied(w.db, tables[p.table], key, p.row)
    ensures PendingNode(w, q) && DependsBy(tables, key, p, q)
  {
    hide Exists, DatabaseHolds, ReferencesHold, EdgesHold, Grows, KeyFits, UsersPresent, Deferred, ColumnsRequired;
    var values := Project(p.row, key.columns);
    SoundGrows(w, tables, linked, target);
    KeyLengths(tables, p.table, key);
    if RefersToLinked(key, values, linked) {
      LinkedFound(target, linked, values[0]);
      assert values == [values[0]];
      ExistsGrows(target, w.db, "User", [USER_ID], values);
      assert false;
    } else {
      var u, r :| 0 <= u < |tables| && tables[u].name == key.referencedTable && r in tables[u].rows
        && Project(r, key.referencedColumns) == values;
      assert Project(r, key.referencedColumns)[0] == values[0];
      assert !IsLinked(tables[u], r, linked);
      assert RefersTo(tables, p.table, key, u);
      if r in w.inserted[u] {
        InsertedSoFarFound(w, tables, linked, target, u, r, key.referencedColumns);
        assert false;
      }
      q := Node(u, r);
    }
  }

  lemma PendingDependsOnPending(w: Work, order: seq<Node>, tables: seq<Table>, linked: set<string>, target: Database,
                                p: Node)
    returns (q: Node)
    requires Stopped(w, order, tables, linked, target) && UsersById(tables) && StableColumns(tables)
    requires PendingNode(w, p)
    ensures PendingNode(w, q) && Imports(tables, linked, p) && Depends(tables, p, q)
  {
    hide Sound, OrderFits, OrderCovers, Ready, IsLinked, Closed, UsersPresent, StableColumns, UsersById,
      TablesFit, KeySatisfied, NothingMoves, KeyCloses;
    PendingIsStuck(w, order, tables, linked, target, p);
    var key := UnreadyKey(w.db, tables[p.table], p.row);
    ClosesAt(tables, linked, p.table, p.row, key);
    q := UnsatisfiedPointsToPending(w, tables, linked, target, p, key);
  }

  /** All pending rows. */
  ghost function PendingNodes(w: Work): (s: set<Node>)
    ensures forall n :: n in s <==> PendingNode(w, n)
  {
    set t, r | 0 <= t < |w.pending| && r in w.pending[t] :: Node(t, r)
  }

  lemma {:induction false} DistinctFits(path: seq<Node>, all: set<Node>)
    requires forall i, j :: 0 <= i < j < |path| ==> path[i] != path[j]
    requires forall n :: n in path ==> n in all
    ensures |path| <= |all|
  {
    if |path| > 0 {
      var last := path[|path| - 1];
      DistinctFits(path[..|path| - 1], all - {last});
    }
  }

  lemma ClosedWalkIsCycle(w: Work, tables: seq<Table>, linked: set<string>, walk: seq<Node>, i: nat)
    requires i < |walk| - 1 && walk[i] == walk[|walk| - 1]
    requires IsChain(tables, linked, walk) && forall n :: n in walk ==> PendingNode(w, n)
    ensures PendingCycle(w, tables, linked)
  {
    hide Depends, Imports, PendingNode;
    var loop := walk[i..];
    forall k | 0 < k < |loop| ensures Depends(tables, loop[k - 1], loop[k]) {
      assert Depends(tables, walk[i + k - 1], walk[i + k]);
    }
    assert forall n :: n in loop ==> n in walk;
    assert IsCycle(tables, linked, loop);
  }

  /** Following the dependencies of pending rows must come back to a row already visited. */
  lemma {:induction false} WalkCloses(w: Work, order: seq<Node>, tables: seq<Table>, linked: set<string>,
                                      target: Database, path: seq<Node>)
    requires Stopped(w, order, tables, linked, target) && UsersById(tables) && StableColumns(tables)
    requires |path| > 0 && IsChain(tables, linked, path) && forall n :: n in path ==> PendingNode(w, n)
    requires forall i, j :: 0 <= i < j < |path| ==> path[i] != path[j]
    ensures PendingCycle(w, tables, linked)
    decreases |PendingNodes(w)| - |path|
  {
    hide Stopped, UsersById, StableColumns, Depends, Imports, PendingCycle, PendingNode;
    DistinctFits(path, PendingNodes(w));
    var q := PendingDependsOnPending(w, order, tables, linked, target, path[|path| - 1]);
    var r := PendingDependsOnPending(w, order, tables, linked, target, q);
    var more := path + [q];
    assert IsChain(tables, linked, more);
    if i :| 0 <= i < |path| && path[i] == q {
      ClosedWalkIsCycle(w, tables, linked, more, i);
    } else {
      DistinctFits(more, PendingNodes(w));
      WalkCloses(w, order, tables, linked, target, more);
    }
  }

  /** When no row can move, the rows left contain a dependency cycle. */
  lemma NoProgressMeansCyclic(w: Work, order: seq<Node>, tables: seq<Table>, linked: set<string>, target: Database)
    requires Stopped(w, order, tables, linked, target) && UsersById(tables) && StableColumns(tables)
    ensures PendingCycle(w, tables, linked)
  {
    hide Running, TablesFit, Closed, UsersPresent, UsersById, StableColumns, Stuck, Depends;
    RemainingZero(w.pending, |tables|);
    var t :| 0 <= t < |tables| && w.pending[t] != [];
    var p := Node(t, w.pending[t][0]);
    var q := PendingDependsOnPending(w, order, tables, linked, target, p);
    WalkCloses(w, order, tables, linked, target, [p]);
  }

  // ---------- a commit means no cycle ----------

  /** Rows of the old database sit under their primary key. */
  ghost predicate KeyedByPrimary(target: Database, tables: seq<Table>) {
    forall t :: 0 <= t < |tables| && tables[t].name in target ==>
      forall k :: k in target[tables[t].name] ==> KeyOf(tables[t], target[tables[t].name][k]) == k
  }

  lemma SameKeySameRow(inserted: seq<seq<Row>>, db: Database, tables: seq<Table>, target: Database, t: nat, r: Row,
                       q: Row)
    requires |inserted| == |tables| && Published(db, inserted, tables, target) && t < |tables|
    requires r in inserted[t] && q in inserted[t] && KeyOf(tables[t], r) == KeyOf(tables[t], q)
    ensures r == q
  {
    hide KeyOf;
    assert TablePublished(db[tables[t].name], target[tables[t].name], tables[t], inserted[t]);
  }

  lemma InsertedWasAbsent(inserted: seq<seq<Row>>, db: Database, tables: seq<Table>, target: Database, t: nat, q: Row)
    requires |inserted| == |tables| && Published(db, inserted, tables, target) && t < |tables| && q in inserted[t]
    requires KeyedByPrimary(target, tables)
    ensures !Exists(target, tables[t].name, tables[t].primaryKey, KeyOf(tables[t], q))
  {
    assert TablePublished(db[tables[t].name], target[tables[t].name], tables[t], inserted[t]);
  }

  /** What a row depends on was inserted before it. */
  lemma DependencyComesFirst(inserted: seq<seq<Row>>, db: Database, order: seq<Node>, target: Database,
                             tables: seq<Table>,
                             users: seq<string>, i: nat, q: Node) returns (j: nat)
    requires Commits(inserted, db, target, tables, users) && InsertedIn(order, inserted, tables, target)
    requires PrimaryReferences(tables) && KeyedByPrimary(target, tables)
    requires i < |order| && Imports(tables, SetOf(users), q) && Depends(tables, order[i], q)
    ensures j < i && order[j] == q
  {
    hide Exists, Published, Closed, UsersPresent, IsLinked, HasNull, Deferred, TableFits, KeyedByPrimary;
    assert NodeFits(order, i, tables, target);
    var p := order[i];
    var key :| key in tables[p.table].foreignKeys && DependsBy(tables, key, p, q);
    assert FoundEarlier(order, i, tables, target, tables[p.table], key, p.row);
    assert q.row in inserted[q.table];
    assert RefersTo(tables, p.table, key, q.table);
    assert key.referencedColumns == tables[q.table].primaryKey;
    InsertedWasAbsent(inserted, db, tables, target, q.table, q.row);
    assert ProvidedBefore(order, i, tables, key, p.row);
    j :| 0 <= j < i && Provides(tables, order[j], key, p.row);
    assert order[j].table == q.table by {
      assert tables[order[j].table].name == tables[q.table].name;
    }
    StoredKeepsKey(tables[q.table], order[j].row);
    assert order[j] in order;
    SameKeySameRow(inserted, db, tables, target, q.table, order[j].row, q.row);
  }

  lemma {:induction false} ChainRunsBack(inserted: seq<seq<Row>>, db: Database, order: seq<Node>, target: Database,
                                         tables: seq<Table>,
                                         users: seq<string>, path: seq<Node>, k: nat, i: nat) returns (j: nat)
    requires Commits(inserted, db, target, tables, users) && InsertedIn(order, inserted, tables, target)
    requires PrimaryReferences(tables) && KeyedByPrimary(target, tables)
    requires IsChain(tables, SetOf(users), path) && k < |path| && i < |order| && order[i] == path[0]
    ensures j + k <= i && order[j] == path[k]
    decreases k
  {
    hide Commits, PrimaryReferences, KeyedByPrimary, Depends, Imports;
    if k == 0 {
      j := i;
    } else {
      var before := ChainRunsBack(inserted, db, order, target, tables, users, path, k - 1, i);
      assert Depends(tables, path[k - 1], path[k]);
      j := DependencyComesFirst(inserted, db, order, target, tables, users, before, path[k]);
    }
  }

  lemma {:induction false} NoCycleFrom(inserted: seq<seq<Row>>, db: Database, order: seq<Node>, target: Database,
                                       tables: seq<Table>,
                                       users: seq<string>, path: seq<Node>, i: nat)
    requires Commits(inserted, db, target, tables, users) && InsertedIn(order, inserted, tables, target)
    requires PrimaryReferences(tables) && KeyedByPrimary(target, tables)
    requires i < |order| && IsCycle(tables, SetOf(users), path) && order[i] == path[0]
    ensures false
    decreases i
  {
    hide Commits, PrimaryReferences, KeyedByPrimary, IsChain;
    var j := ChainRunsBack(inserted, db, order, target, tables, users, path, |path| - 1, i);
    NoCycleFrom(inserted, db, order, target, tables, users, path, j);
  }

  /** A snapshot that was imported has no dependency cycle among the rows inserted. */
  lemma CommitMeansAcyclic(inserted: seq<seq<Row>>, db: Database, target: Database, tables: seq<Table>,
                           users: seq<string>)
    requires Commits(inserted, db, target, tables, users)
    requires PrimaryReferences(tables) && KeyedByPrimary(target, tables)
    ensures !Cyclic(tables, SetOf(users))
  {
    hide Published, OrderFits, Closed, PrimaryReferences, KeyedByPrimary, Depends, TablesFit, UsersPresent,
      TargetFits, IsLinked;
    var order :| InsertedIn(order, inserted, tables, target);
    if path :| IsCycle(tables, SetOf(users), path) {
      var n := path[0];
      assert Imports(tables, SetOf(users), n);
      assert n.row in inserted[n.table];
      assert Node(n.table, n.row) in order;
      var i :| 0 <= i < |order| && order[i] == n;
      NoCycleFrom(inserted, db, order, target, tables, users, path, i);
    }
  }

  // ---------- collisions ----------

  /** No two rows to insert share a primary key. Linked users may: two of them can be one target user. */
  ghost predicate ImportedKeysDistinct(table: Table, linked: set<string>) {
    forall i, j :: 0 <= i < j < |table.rows| && !IsLinked(table, table.rows[i], linked) && !IsLinked(table, table.rows[j], linked) ==>
      KeyOf(table, table.rows[i]) != KeyOf(table, table.rows[j])
  }

  lemma NotInBoth(table: Table, linked: set<string>, a: seq<Row>, b: seq<Row>, r: Row)
    requires ImportedKeysDistinct(table, linked) && !IsLinked(table, r, linked)
    requires multiset(a) + multiset(b) <= multiset(table.rows) && r in a
    ensures r !in b
  {
    hide KeyOf, IsLinked;
    if r in table.rows {
      OnceCountsOne(table.rows, r);
    }
    assert (multiset(a) + multiset(b))[r] <= multiset(table.rows)[r];
    assert r in multiset(a);
    assert r in b ==> r in multiset(b);
  }

  lemma SameKeyMeansSameRow(table: Table, linked: set<string>, r: Row, q: Row)
    requires ImportedKeysDistinct(table, linked) && !IsLinked(table, r, linked) && !IsLinked(table, q, linked)
    requires r in table.rows && q in table.rows && KeyOf(table, r) == KeyOf(table, q)
    ensures r == q
  {
    hide KeyOf, IsLinked;
  }

  /** A row refused as a duplicate really has its key taken in the old database. */
  lemma CollisionIsWithTarget(w: Work, order: seq<Node>, tables: seq<Table>, linked: set<string>, target: Database,
                              n: Node)
    requires TablesFit(tables) && StoppedIn(IdCollision(n), w, order, tables, linked, target)
    requires n.table < |tables| && ImportedKeysDistinct(tables[n.table], linked)
    ensures tables[n.table].name in target && KeyOf(tables[n.table], n.row) in target[tables[n.table].name]
  {
    hide ImportedKeysDistinct, ReferencesHold, EdgesHold, OrderFits, OrderCovers, IsLinked, KeyOf, Stored,
      NonePatched, TableFits, TableHolds;
    var t, table := n.table, tables[n.table];
    var k := KeyOf(table, n.row);
    if k !in target[table.name] {
      assert NonePatched(|tables|)[t] == {} by { NothingPatchedAt(|tables|, t); }
      var r := InsertedUnder(w.db[table.name], target[table.name], table, w.inserted[t], k);
      SameKeyMeansSameRow(table, linked, r, n.row);
      NotInBoth(table, linked, w.pending[t], w.inserted[t], r);
      assert false;
    }
  }

  lemma NothingPatchedAt(n: nat, t: nat)
    requires t < n
    ensures |NonePatched(n)| == n && NonePatched(n)[t] == {}
  {
  }

  lemma InsertedUnder(now: map<Key, Row>, before: map<Key, Row>, table: Table, inserted: seq<Row>,
                      k: Key) returns (r: Row)
    requires TableHolds(now, before, table, inserted, {}) && k in now && k !in before
    ensures r in inserted && KeyOf(table, r) == k
  {
    r :| r in inserted && KeyOf(table, r) == k;
  }

  // ---------- exactly when the import commits ----------

  /** Nothing else stands in the way: the linked users are there, and the rows to insert have new and
      distinct keys and fill the columns that forbid NULL. Rows of linked users are not inserted, so
      nothing is asked of them. */
  ghost predicate FitsTarget(target: Database, tables: seq<Table>, users: seq<string>) {
    && TablesFit(tables) && TargetFits(target, tables) && KeyedByPrimary(target, tables)
    && Closed(tables, SetOf(users)) && UsersPresent(target, SetOf(users))
    && PrimaryReferences(tables) && UsersById(tables)
    && (forall t :: 0 <= t < |tables| ==> ImportedKeysDistinct(tables[t], SetOf(users)))
    && (forall n :: Imports(tables, SetOf(users), n) ==> NotNullHolds(tables[n.table], n.row))
    && forall n :: Imports(tables, SetOf(users), n) ==> KeyIsNew(target, tables[n.table], n.row)
  }

  ghost predicate KeyIsNew(target: Database, table: Table, row: Row) {
    table.name in target ==> KeyOf(table, row) !in target[table.name]
  }

  lemma PendingCycleIsCycle(w: Work, tables: seq<Table>, linked: set<string>)
    requires PendingCycle(w, tables, linked)
    ensures Cyclic(tables, linked)
  {
  }

  lemma RefusalIsCycle(why: Outcome, w: Work, order: seq<Node>, target: Database, tables: seq<Table>,
                       users: seq<string>)
    requires FitsTarget(target, tables, users) && StoppedIn(why, w, order, tables, SetOf(users), target)
    ensures Cyclic(tables, SetOf(users))
  {
    hide Running, NothingMoves, PrimaryReferences, TablesFit, ImportedKeysDistinct, Closed, UsersPresent,
      UsersById, TargetFits, KeyedByPrimary, KeyOf, NotNullHolds, Cyclic, IsLinked;
    PrimaryIsStable(tables);
    match why
    case IdCollision(n) =>
      assert KeyIsNew(target, tables[n.table], n.row);
      CollisionIsWithTarget(w, order, tables, SetOf(users), target, n);
      assert false;
    case NotNullViolation(n) => assert false;
    case NoProgress(left) =>
      NoProgressMeansCyclic(w, order, tables, SetOf(users), target);
      PendingCycleIsCycle(w, tables, SetOf(users));
    case Imported(_) =>
  }

  /** Some row's postponed columns name a column twice. */
  ghost predicate SomePatchRepeats(tables: seq<Table>, linked: set<string>) {
    exists n :: PatchWouldRepeat(n, tables, linked)
  }

  /** The import commits if and only if the rows to insert have no dependency cycle and none of their
      patches names a column twice; and each failure says which of the two it was. */
  lemma CommitsExactlyWhenAcyclic(result: Result, db: Database, target: Database, tables: seq<Table>,
                                  users: seq<string>)
    requires FitsTarget(target, tables, users) && TransactionHolds(result, db, target, tables, users)
    ensures result.Committed? <==> !Cyclic(tables, SetOf(users)) && !SomePatchRepeats(tables, SetOf(users))
    ensures result.Refused? ==> Cyclic(tables, SetOf(users))
    ensures result.PatchRefused? ==> SomePatchRepeats(tables, SetOf(users))
    ensures result.Committed? || result.Refused? || result.PatchRefused?
  {
    hide StoppedIn, Cyclic, UserExists, Closed, TablesFit, TargetFits, PrimaryReferences, KeyedByPrimary,
      ImportedKeysDistinct, CommitHolds, PatchWouldRepeat;
    if result.Committed? {
      CommitMeansAcyclic(result.inserted, db, target, tables, users);
      CommitRepeatsNothing(result.inserted, db, target, tables, SetOf(users));
    } else if result.Refused? {
      var w, done :| StoppedIn(result.why, w, done, tables, SetOf(users), target);
      RefusalIsCycle(result.why, w, done, target, tables, users);
    }
  }

  lemma CommitRepeatsNothing(inserted: seq<seq<Row>>, db: Database, target: Database, tables: seq<Table>,
                             linked: set<string>)
    requires CommitHolds(inserted, tables, linked, target, db)
    ensures !SomePatchRepeats(tables, linked)
  {
    hide Published, InsertedIn, IsLinked, RepeatsColumn;
    forall n | PatchWouldRepeat(n, tables, linked) ensures PatchRepeats(n, inserted, tables) {
    }
  }

  /** One linked user, and a row that refers to itself by two nullable keys on one column. */
  function SharedColumn(): seq<Table> {
    var own := ForeignKey([1], "Note", [0]);
    [Table("User", [false], [0], [], [[Some("u")]]),
     Table("Note", [false, true], [0], [own, own], [[Some("n"), Some("n")]])]
  }

  function WithUser(): Database {
    map["User" := map[[Some("u")] := [Some("u")]], "Note" := map[]]
  }

  lemma SharedColumnRows(n: Node)
    requires IsRow(SharedColumn(), n)
    ensures n == Node(0, [Some("u")]) || n == Node(1, [Some("n"), Some("n")])
  {
  }

  lemma SharedColumnTables()
    ensures TablesFit(SharedColumn()) && TargetFits(WithUser(), SharedColumn())
  {
    var users, notes := SharedColumn()[0], SharedColumn()[1];
    assert users.name != notes.name;
    assert TableFits(users);
    assert TableFits(notes) by {
      assert KeyFits(notes, ForeignKey([1], "Note", [0]));
    }
  }

  lemma SharedColumnReferences()
    ensures PrimaryReferences(SharedColumn()) && UsersById(SharedColumn())
  {
    forall t, u, key | RefersTo(SharedColumn(), t, key, u)
      ensures key.referencedColumns == SharedColumn()[u].primaryKey
    {
      assert key == ForeignKey([1], "Note", [0]);
    }
  }

  lemma SharedColumnTarget()
    ensures KeyedByPrimary(WithUser(), SharedColumn()) && UsersPresent(WithUser(), SetOf(["u"]))
  {
    var user: Row := [Some("u")];
    assert KeyOf(SharedColumn()[0], user) == user;
    assert UserExists(WithUser(), "u") by {
      assert user in WithUser()["User"] && Project(user, [USER_ID]) == user;
    }
  }

  lemma SharedColumnCloses()
    ensures Closed(SharedColumn(), SetOf(["u"]))
  {
    var tables, linked := SharedColumn(), SetOf(["u"]);
    var own, note: Row := ForeignKey([1], "Note", [0]), [Some("n"), Some("n")];
    assert HasRow(tables, own, Project(note, [1])) by {
      assert tables[1].name == own.referencedTable && note in tables[1].rows;
      assert Project(note, [0]) == Project(note, [1]);
    }
    assert TableCloses(tables, tables[0], linked);
    assert RowCloses(tables, tables[1], note, linked);
  }

  lemma SharedColumnKeys()
    ensures forall n :: IsRow(SharedColumn(), n) ==> NotNullHolds(SharedColumn()[n.table], n.row)
    ensures forall n :: Imports(SharedColumn(), SetOf(["u"]), n) ==> KeyIsNew(WithUser(), SharedColumn()[n.table], n.row)
    ensures IsLinked(SharedColumn()[0], SharedColumn()[0].rows[0], SetOf(["u"]))
  {
    var tables := SharedColumn();
    assert IsLinked(tables[0], [Some("u")], SetOf(["u"]));
    forall n | IsRow(tables, n)
      ensures NotNullHolds(tables[n.table], n.row)
      ensures n.table == 0 ==> IsLinked(tables[0], n.row, SetOf(["u"]))
    {
      SharedColumnRows(n);
    }
  }

  lemma SharedColumnFits()
    ensures FitsTarget(WithUser(), SharedColumn(), ["u"])
    ensures IsLinked(SharedColumn()[0], SharedColumn()[0].rows[0], SetOf(["u"]))
  {
    hide TablesFit, TargetFits, KeyedByPrimary, UsersPresent, Closed, PrimaryReferences, UsersById,
      NotNullHolds, KeyIsNew, IsLinked;
    SharedColumnTables();
    SharedColumnReferences();
    SharedColumnTarget();
    SharedColumnCloses();
    SharedColumnKeys();
  }

  lemma TwiceDeferred(table: Table, row: Row, c: nat)
    requires |table.foreignKeys| == 2
    requires forall i :: 0 <= i < 2 ==> Deferred(table, table.foreignKeys[i], row) && table.foreignKeys[i].columns == [c]
    ensures RepeatsColumn(table, row)
  {
    hide Deferred;
    assert PostponedBelow(table, row, 0) == [];
    assert PostponedBelow(table, row, 1) == [c];
    var columns := PostponedList(table, row);
    assert columns == [c, c];
    assert columns[0] == columns[1];
  }

  lemma SharedColumnRepeats()
    ensures SomePatchRepeats(SharedColumn(), SetOf(["u"]))
  {
    hide RepeatsColumn;
    var tables, linked := SharedColumn(), SetOf(["u"]);
    var note: Row := [Some("n"), Some("n")];
    assert Deferred(tables[1], ForeignKey([1], "Note", [0]), note);
    TwiceDeferred(tables[1], note, 1);
    assert PatchWouldRepeat(Node(1, note), tables, linked);
  }

  lemma SharedColumnIsAcyclic()
    ensures !Cyclic(SharedColumn(), SetOf(["u"]))
  {
    var tables, linked := SharedColumn(), SetOf(["u"]);
    forall p, q | Imports(tables, linked, p) ensures !Depends(tables, p, q) {
      SharedColumnRows(p);
    }
    forall path: seq<Node> | |path| > 1 ensures !IsChain(tables, linked, path) {
      if Imports(tables, linked, path[0]) {
        assert !Depends(tables, path[1 - 1], path[1]);
      }
    }
  }

  /** Two nullable keys into their own table that share a column: nothing is wrong with the snapshot, no
      cycle stands in the way, and the import still fails at its patches. */
  lemma SharedColumnIsRefused(result: Result, db: Database)
    requires TransactionHolds(result, db, WithUser(), SharedColumn(), ["u"])
    ensures FitsTarget(WithUser(), SharedColumn(), ["u"])
    ensures IsLinked(SharedColumn()[0], SharedColumn()[0].rows[0], SetOf(["u"]))
    ensures result.PatchRefused?
  {
    hide FitsTarget, TransactionHolds, SomePatchRepeats, Cyclic, IsLinked;
    SharedColumnFits();
    SharedColumnRepeats();
    SharedColumnIsAcyclic();
    CommitsExactlyWhenAcyclic(result, db, WithUser(), SharedColumn(), ["u"]);
  }
}
