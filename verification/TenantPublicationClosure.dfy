/** When the references of a publication still resolve inside it. */
module TenantPublicationClosure {
  import opened Common
  import opened TenantTables
  import opened TenantClosure
  import opened TenantPublication
  import opened TenantPublicationTheorems

  /** A non-NULL reference of a row finds q. */
  ghost predicate Finds(tables: seq<Table>, t: nat, row: Row, key: ForeignKey, u: nat, q: Row) {
    && t < |tables| && u < |tables| && row in tables[t].rows && q in tables[u].rows
    && key in tables[t].foreignKeys && tables[u].name == key.referencedTable
    && !HasNull(Project(row, key.columns))
    && Project(q, key.referencedColumns) == Project(row, key.columns)
  }

  ghost predicate KeepsColumns(table: Table, row: Row, columns: seq<nat>, gone: DetachedKeys) {
    forall c :: c in columns ==> (table.name, c, KeyOf(table, row)) !in gone
  }

  /** Referenced columns identify a row, as unique constraints require. */
  ghost predicate UniqueReferenced(tables: seq<Table>) {
    forall t: nat, row, key, u: nat, q, r :: Finds(tables, t, row, key, u, q) && Finds(tables, t, row, key, u, r) ==> q == r
  }

  /** Wherever a reference stays, the columns it refers to stay too. */
  ghost predicate TargetsKept(tables: seq<Table>, staged: StagedKeys, gone: DetachedKeys) {
    forall t: nat, row, key, u: nat, q :: Finds(tables, t, row, key, u, q)
      && (tables[t].name, KeyOf(tables[t], row)) !in staged && KeepsColumns(tables[t], row, key.columns, gone)
      ==> KeepsColumns(tables[u], q, key.referencedColumns, gone)
  }

  // ---------- rows of the publication ----------

  lemma {:induction false} RemainingHas(table: Table, staged: StagedKeys, gone: DetachedKeys, n: nat, row: Row)
    requires n <= |table.rows| && row in table.rows[..n] && (table.name, KeyOf(table, row)) !in staged
    ensures Nulled(table, row, gone) in RemainingUpTo(table, staged, gone, n)
  {
    hide KeyOf, Nulled;
    assert table.rows[..n] == table.rows[..n - 1] + [table.rows[n - 1]];
    var rows := RemainingUpTo(table, staged, gone, n);
    if row == table.rows[n - 1] {
      assert rows[|rows| - 1] == Nulled(table, row, gone);
    } else {
      RemainingHas(table, staged, gone, n - 1, row);
    }
  }

  lemma {:induction false} RemainingCameFrom(table: Table, staged: StagedKeys, gone: DetachedKeys, n: nat,
                                             p: Row) returns (row: Row)
    requires n <= |table.rows| && p in RemainingUpTo(table, staged, gone, n)
    ensures row in table.rows && (table.name, KeyOf(table, row)) !in staged && p == Nulled(table, row, gone)
  {
    hide KeyOf, Nulled;
    var last := table.rows[n - 1];
    if (table.name, KeyOf(table, last)) !in staged && p == Nulled(table, last, gone) {
      row := last;
    } else {
      row := RemainingCameFrom(table, staged, gone, n - 1, p);
    }
  }

  lemma ProjectKept(table: Table, row: Row, columns: seq<nat>, gone: DetachedKeys)
    requires KeepsColumns(table, row, columns, gone)
    ensures Project(Nulled(table, row, gone), columns) == Project(row, columns)
  {
    hide KeyOf;
    forall i | 0 <= i < |columns| ensures Cell(Nulled(table, row, gone), columns[i]) == Cell(row, columns[i]) {
      assert columns[i] in columns;
    }
  }

  /** Non-NULL values were not detached. */
  lemma NotNullIsKept(table: Table, row: Row, columns: seq<nat>, gone: DetachedKeys)
    requires !HasNull(Project(Nulled(table, row, gone), columns))
    ensures KeepsColumns(table, row, columns, gone)
  {
    hide KeyOf;
    var p := Nulled(table, row, gone);
    forall c | c in columns ensures (table.name, c, KeyOf(table, row)) !in gone {
      var i :| 0 <= i < |columns| && columns[i] == c;
      assert Project(p, columns)[i] == Cell(p, c);
      assert Cell(p, c) != None;
    }
  }

  // ---------- closure ----------

  lemma CloseFinds(tables: seq<Table>, t: nat, row: Row, key: ForeignKey) returns (u: nat, q: Row)
    requires Closed(tables, {}) && t < |tables| && row in tables[t].rows && key in tables[t].foreignKeys
    requires !HasNull(Project(row, key.columns))
    ensures Finds(tables, t, row, key, u, q)
  {
    hide Project, HasNull;
    assert TableCloses(tables, tables[t], {}) && RowCloses(tables, tables[t], row, {}) && KeyCloses(tables, key, row, {});
    u, q :| 0 <= u < |tables| && tables[u].name == key.referencedTable && q in tables[u].rows
      && Project(q, key.referencedColumns) == Project(row, key.columns);
  }

  /** A publication row and the original row it stands for. */
  ghost predicate StandsFor(p: Publication, tables: seq<Table>, staged: StagedKeys, gone: DetachedKeys, t: nat,
                            published: Row, row: Row) {
    && |p.tables| == |tables| && t < |tables| && published in p.tables[t].rows && row in tables[t].rows
    && (tables[t].name, KeyOf(tables[t], row)) !in staged
    && published == Nulled(tables[t], row, gone)
  }

  ghost predicate Publishes(p: Publication, tables: seq<Table>, staged: StagedKeys, gone: DetachedKeys) {
    p.tables == PublishedTables(tables, staged, gone) && NamesDistinct(tables)
    && forall t :: 0 <= t < |tables| ==> TableSurvives(tables, staged, p.tables[t])
  }

  lemma OriginalOf(p: Publication, tables: seq<Table>, staged: StagedKeys, gone: DetachedKeys, t: nat,
                   published: Row) returns (row: Row)
    requires Publishes(p, tables, staged, gone) && t < |tables| && published in p.tables[t].rows
    ensures StandsFor(p, tables, staged, gone, t, published, row)
  {
    hide KeyOf, Nulled, TableSurvives, RemainingUpTo;
    row := RemainingCameFrom(tables[t], staged, gone, |tables[t].rows|, published);
  }

  lemma PublishedOf(p: Publication, tables: seq<Table>, staged: StagedKeys, gone: DetachedKeys, t: nat, row: Row)
    requires Publishes(p, tables, staged, gone) && t < |tables| && row in tables[t].rows
    requires (tables[t].name, KeyOf(tables[t], row)) !in staged
    ensures StandsFor(p, tables, staged, gone, t, Nulled(tables[t], row, gone), row)
  {
    hide KeyOf, Nulled, TableSurvives, RemainingUpTo;
    assert tables[t].rows[..|tables[t].rows|] == tables[t].rows;
    RemainingHas(tables[t], staged, gone, |tables[t].rows|, row);
  }

  lemma KeptTargetIsPublished(p: Publication, tables: seq<Table>, staged: StagedKeys, gone: DetachedKeys, t: nat,
                              published: Row, key: ForeignKey)
    requires Publishes(p, tables, staged, gone) && Closed(tables, {}) && TargetsKept(tables, staged, gone)
    requires t < |tables| && published in p.tables[t].rows && key in p.tables[t].foreignKeys
    requires !HasNull(Project(published, key.columns))
    ensures HasRow(p.tables, key, Project(published, key.columns))
  {
    hide KeyOf, Project, HasNull, Nulled, Closed, KeepsColumns, NamesDistinct, RemainingUpTo;
    var row := OriginalOf(p, tables, staged, gone, t, published);
    NotNullIsKept(tables[t], row, key.columns, gone);
    ProjectKept(tables[t], row, key.columns, gone);
    var u, q := CloseFinds(tables, t, row, key);
    assert KeepsColumns(tables[u], q, key.referencedColumns, gone);
    ProjectKept(tables[u], q, key.referencedColumns, gone);
    assert !Dangles(tables, staged, key, published);
    assert (tables[u].name, KeyOf(tables[u], q)) !in staged;
    PublishedOf(p, tables, staged, gone, u, q);
    assert p.tables[u].name == key.referencedTable;
  }

  /** Closure carries over if no kept reference loses its target. */
  lemma KeptMeansClosed(p: Publication, tables: seq<Table>, staged: StagedKeys, gone: DetachedKeys)
    requires Publishes(p, tables, staged, gone) && Closed(tables, {}) && TargetsKept(tables, staged, gone)
    ensures Closed(p.tables, {})
  {
    hide Publishes, HasRow, TargetsKept;
    forall t | 0 <= t < |p.tables| ensures TableCloses(p.tables, p.tables[t], {}) {
      forall published, key | published in p.tables[t].rows && key in p.tables[t].foreignKeys
        ensures KeyCloses(p.tables, key, published, {})
      {
        if !HasNull(Project(published, key.columns)) {
          SizeIfPublishes(p, tables, staged, gone);
          KeptTargetIsPublished(p, tables, staged, gone, t, published, key);
        }
      }
    }
  }

  lemma SizeIfPublishes(p: Publication, tables: seq<Table>, staged: StagedKeys, gone: DetachedKeys)
    requires Publishes(p, tables, staged, gone)
    ensures |p.tables| == |tables|
    ensures forall t :: 0 <= t < |tables| ==> p.tables[t] == PublishedTable(tables[t], staged, gone)
  {
  }

  /** And only then. */
  lemma ClosedMeansKept(p: Publication, tables: seq<Table>, staged: StagedKeys, gone: DetachedKeys)
    requires Publishes(p, tables, staged, gone) && UniqueReferenced(tables) && Closed(p.tables, {})
    ensures TargetsKept(tables, staged, gone)
  {
    hide KeyOf, Project, HasNull, Nulled, Closed, Publishes, RemainingUpTo, KeepsColumns, UniqueReferenced;
    SizeIfPublishes(p, tables, staged, gone);
    forall t: nat, row, key, u: nat, q | Finds(tables, t, row, key, u, q)
      && (tables[t].name, KeyOf(tables[t], row)) !in staged && KeepsColumns(tables[t], row, key.columns, gone)
      ensures KeepsColumns(tables[u], q, key.referencedColumns, gone)
    {
      TargetStays(p, tables, staged, gone, t, row, key, u, q);
    }
  }

  lemma TargetStays(p: Publication, tables: seq<Table>, staged: StagedKeys, gone: DetachedKeys, t: nat, row: Row,
                    key: ForeignKey, u: nat, q: Row)
    requires Publishes(p, tables, staged, gone) && UniqueReferenced(tables) && Closed(p.tables, {})
    requires Finds(tables, t, row, key, u, q) && (tables[t].name, KeyOf(tables[t], row)) !in staged
    requires KeepsColumns(tables[t], row, key.columns, gone)
    ensures KeepsColumns(tables[u], q, key.referencedColumns, gone)
  {
    hide KeyOf, Project, HasNull, Nulled, Closed, RemainingUpTo, KeepsColumns, TableSurvives, UniqueReferenced;
    PublishedOf(p, tables, staged, gone, t, row);
    ProjectKept(tables[t], row, key.columns, gone);
    var v, found := CloseFinds(p.tables, t, Nulled(tables[t], row, gone), key);
    assert tables[v].name == tables[u].name;
    var r := OriginalOf(p, tables, staged, gone, v, found);
    NotNullIsKept(tables[u], r, key.referencedColumns, gone);
    ProjectKept(tables[u], r, key.referencedColumns, gone);
    assert Finds(tables, t, row, key, u, r);
    OnlyTarget(tables, t, row, key, u, q, r);
  }

  lemma OnlyTarget(tables: seq<Table>, t: nat, row: Row, key: ForeignKey, u: nat, q: Row, r: Row)
    requires UniqueReferenced(tables) && Finds(tables, t, row, key, u, q) && Finds(tables, t, row, key, u, r)
    ensures q == r
  {
    hide Finds;
  }

  /** The publication of a closed snapshot is closed if and only if every reference that stays keeps
      the columns it refers to. */
  lemma PublicationClosedExactly(p: Publication, tables: seq<Table>, pinned: set<(string, nat)>, stage: seq<Stage>,
                                 detach: seq<Detach>)
    requires Accepted(p, tables, pinned, stage, detach) && Closed(tables, {}) && UniqueReferenced(tables)
    ensures Closed(p.tables, {}) <==> TargetsKept(tables, StagedUpTo(stage, |stage|), DetachedUpTo(detach, |detach|))
  {
    hide Closed, UniqueReferenced, TargetsKept, TableSurvives, StagedUpTo, DetachedUpTo, Requested,
      KeysDistinct, TableFits, PublishedTables;
    var staged, gone := StagedUpTo(stage, |stage|), DetachedUpTo(detach, |detach|);
    assert Publishes(p, tables, staged, gone);
    if Closed(p.tables, {}) {
      ClosedMeansKept(p, tables, staged, gone);
    }
    if TargetsKept(tables, staged, gone) {
      KeptMeansClosed(p, tables, staged, gone);
    }
  }

  /** No detached column is one that any key refers to. */
  ghost predicate NoReferencedColumnDetached(tables: seq<Table>, detach: seq<Detach>) {
    forall i, t, key :: 0 <= i < |detach| && 0 <= t < |tables| && key in tables[t].foreignKeys && key.referencedTable == detach[i].table ==>
      detach[i].column !in key.referencedColumns
  }

  /** The condition a caller can read off the request alone. */
  lemma UnreferencedColumnsAreSafe(p: Publication, tables: seq<Table>, pinned: set<(string, nat)>, stage: seq<Stage>,
                                   detach: seq<Detach>)
    requires Accepted(p, tables, pinned, stage, detach) && Closed(tables, {})
    requires NoReferencedColumnDetached(tables, detach)
    ensures Closed(p.tables, {})
  {
    hide Closed, KeyOf, TableSurvives, StagedUpTo, DetachedUpTo, Requested, KeysDistinct, TableFits,
      PublishedTables, Project;
    var staged, gone := StagedUpTo(stage, |stage|), DetachedUpTo(detach, |detach|);
    forall t: nat, row, key, u: nat, q | Finds(tables, t, row, key, u, q) ensures KeepsColumns(tables[u], q, key.referencedColumns, gone) {
      forall c | c in key.referencedColumns ensures (tables[u].name, c, KeyOf(tables[u], q)) !in gone {
        if (tables[u].name, c, KeyOf(tables[u], q)) in gone {
          var i := DetachedByRequest(detach, |detach|, tables[u].name, c, KeyOf(tables[u], q));
          assert false;
        }
      }
    }
    KeptMeansClosed(p, tables, staged, gone);
  }

  // ---------- the condition is needed ----------

  /** One table whose id refers to its link column, and whose link column refers to its id. */
  function LoopTable(): Table {
    Table("T", [false, true], [0], [ForeignKey([1], "T", [0]), ForeignKey([0], "T", [1])], [[Some("x"), Some("x")]])
  }

  function LoopDetach(): seq<Detach> {
    [Detach("T", [[Some("x")]], 1)]
  }

  lemma LoopFacts()
    ensures LoopTable().rows[0] == [Some("x"), Some("x")] && KeyOf(LoopTable(), LoopTable().rows[0]) == [Some("x")]
    ensures forall row :: row in LoopTable().rows ==> row == [Some("x"), Some("x")]
    ensures Position([LoopTable()], "T", 1) == Some(0) && [Some("x")] in Index(LoopTable())
    ensures SourceAccepted([LoopTable()])
  {
  }

  lemma LoopIsClosed()
    ensures Closed([LoopTable()], {})
  {
    hide TableFits;
    var tables, row := [LoopTable()], LoopTable().rows[0];
    LoopFacts();
    forall key | key in LoopTable().foreignKeys ensures KeyCloses(tables, key, row, {}) {
      assert Project(row, key.columns) == [Some("x")] == Project(row, key.referencedColumns);
      assert tables[0].name == key.referencedTable && row in tables[0].rows;
    }
  }

  lemma LoopIsAccepted()
    ensures Acceptable([LoopTable()], {}, [], LoopDetach())
  {
    var tables, detach := [LoopTable()], LoopDetach();
    LoopFacts();
    var first := LoopTable().foreignKeys[0];
    assert first in LoopTable().foreignKeys && 1 in first.columns;
    assert DetachFits(tables, {}, StagedUpTo([], 0), detach, 0);
    forall key, row ensures !Dangles(tables, {}, key, row) {
    }
  }

  /** An accepted request on a closed snapshot whose publication is not closed: the detached column is
      one that another reference needs. */
  lemma DetachingAReferencedColumnCanBreakClosure()
    ensures SourceAccepted([LoopTable()]) && Acceptable([LoopTable()], {}, [], LoopDetach())
    ensures Closed([LoopTable()], {}) && !Closed(Prepared([LoopTable()], [], LoopDetach()).tables, {})
  {
    hide TableFits, Closed, Acceptable;
    var tables, detach := [LoopTable()], LoopDetach();
    LoopFacts();
    LoopIsClosed();
    LoopIsAccepted();
    var row, key := LoopTable().rows[0], LoopTable().foreignKeys[1];
    var p, gone := Prepared(tables, [], detach), DetachedUpTo(detach, 1);
    assert gone == {("T", 1, [Some("x")])} by {
      assert gone == DetachKeys("T", 1, [[Some("x")]]);
    }
    var published := Nulled(LoopTable(), row, gone);
    assert published == [Some("x"), None];
    assert RemainingUpTo(LoopTable(), {}, gone, 0) == [];
    assert RemainingUpTo(LoopTable(), {}, gone, 1) == [published];
    assert p.tables[0].rows == [published];
    assert |p.tables| == 1 && p.tables[0].foreignKeys == LoopTable().foreignKeys && key in LoopTable().foreignKeys;
    assert published in p.tables[0].rows;
    assert Project(published, key.columns) == [Some("x")] && !HasNull([Some("x")]);
    assert Project(published, key.referencedColumns) == [None];
    if Closed(p.tables, {}) {
      var u, q := CloseFinds(p.tables, 0, published, key);
      assert false;
    }
  }
}
