/** Which publication requests are accepted, and what they leave, in terms of rows and cells. */
module TenantPublicationMeaning {
  import opened Common
  import opened TenantTables
  import opened TenantPublication

  /** The request names rows of a table by their keys, each once. */
  ghost predicate NamesRows(tables: seq<Table>, name: string, keys: seq<Key>) {
    && keys != [] && (forall i, j :: 0 <= i < j < |keys| ==> keys[i] != keys[j])
    && exists t: nat :: t < |tables| && tables[t].name == name && forall k :: k in keys ==> HasKey(tables[t], k)
  }

  ghost predicate HasKey(table: Table, k: Key) {
    exists row :: row in table.rows && Project(row, table.primaryKey) == k
  }

  lemma IndexHas(table: Table, k: Key)
    ensures k in Index(table) <==> HasKey(table, k)
  {
    if k in Index(table) {
      assert Index(table)[k] in table.rows;
    }
    if row :| row in table.rows && Project(row, table.primaryKey) == k {
      var i :| 0 <= i < |table.rows| && table.rows[i] == row;
      assert KeyOf(table, table.rows[i]) in Index(table);
    }
  }

  lemma SelectsNamesRows(tables: seq<Table>, name: string, keys: seq<Key>)
    requires NamesDistinct(tables)
    ensures Selects(tables, name, keys) <==> NamesRows(tables, name, keys)
    ensures Selects(tables, name, keys) ==>
      var t := Position(tables, name, |tables|).value;
      forall u :: 0 <= u < |tables| && tables[u].name == name ==> u == t
  {
    hide Index, HasKey;
    forall t, k | 0 <= t < |tables| ensures k in Index(tables[t]) <==> HasKey(tables[t], k) {
      IndexHas(tables[t], k);
    }
  }

  /** A row is set aside by some request. */
  ghost predicate IsStaged(stage: seq<Stage>, table: Table, row: Row) {
    exists i :: 0 <= i < |stage| && stage[i].table == table.name && Project(row, table.primaryKey) in stage[i].keys
  }

  /** A cell is set to NULL by some request. */
  ghost predicate IsDetached(detach: seq<Detach>, table: Table, row: Row, c: nat) {
    exists i :: 0 <= i < |detach| && detach[i].table == table.name && detach[i].column == c
                && Project(row, table.primaryKey) in detach[i].keys
  }

  lemma {:induction false} StagedUpToIs(stage: seq<Stage>, n: nat, name: string, k: Key)
    requires n <= |stage|
    ensures (name, k) in StagedUpTo(stage, n) <==> exists i :: 0 <= i < n && stage[i].table == name && k in stage[i].keys
  {
    if n > 0 {
      StagedUpToIs(stage, n - 1, name, k);
    }
  }

  lemma {:induction false} DetachedUpToIs(detach: seq<Detach>, n: nat, name: string, c: nat, k: Key)
    requires n <= |detach|
    ensures (name, c, k) in DetachedUpTo(detach, n)
      <==> exists i :: 0 <= i < n && detach[i].table == name && detach[i].column == c && k in detach[i].keys
  {
    if n > 0 {
      DetachedUpToIs(detach, n - 1, name, c, k);
    }
  }

  // ---------- the requests ----------

  /** The column may be emptied: it is nullable, of some reference, not of the primary key and not pinned. */
  ghost predicate MayBeEmptied(tables: seq<Table>, name: string, column: nat, pinned: set<(string, nat)>) {
    exists t: nat :: t < |tables| && tables[t].name == name
      && column < |tables[t].nullable| && tables[t].nullable[column] && column !in tables[t].primaryKey && (name, column) !in pinned
      && exists key :: key in tables[t].foreignKeys && column in key.columns
  }

  ghost predicate StagesApart(stage: seq<Stage>) {
    forall i, j, k :: 0 <= i < j < |stage| && stage[i].table == stage[j].table && k in stage[i].keys ==> k !in stage[j].keys
  }

  ghost predicate DetachesApart(detach: seq<Detach>) {
    forall i, j, k :: 0 <= i < j < |detach| && SameColumn(detach[i], detach[j]) && k in detach[i].keys ==> k !in detach[j].keys
  }

  ghost predicate SameColumn(a: Detach, b: Detach) {
    a.table == b.table && a.column == b.column
  }

  ghost predicate NoneBoth(stage: seq<Stage>, detach: seq<Detach>) {
    forall i, j, k :: 0 <= i < |stage| && 0 <= j < |detach| && stage[i].table == detach[j].table && k in stage[i].keys ==> k !in detach[j].keys
  }

  lemma StageFitsExactly(tables: seq<Table>, stage: seq<Stage>, n: nat)
    requires NamesDistinct(tables) && n < |stage|
    ensures StageFits(tables, stage, n) <==>
      && NamesRows(tables, stage[n].table, stage[n].keys) && stage[n].table != "Workspace"
      && forall i, k :: 0 <= i < n && stage[i].table == stage[n].table && k in stage[i].keys ==> k !in stage[n].keys
  {
    hide Selects, NamesRows, StagedUpTo;
    SelectsNamesRows(tables, stage[n].table, stage[n].keys);
    forall k ensures (stage[n].table, k) in StagedUpTo(stage, n)
        <==> exists i :: 0 <= i < n && stage[i].table == stage[n].table && k in stage[i].keys
    {
      StagedUpToIs(stage, n, stage[n].table, k);
    }
  }

  lemma StagesFitExactly(tables: seq<Table>, stage: seq<Stage>)
    requires NamesDistinct(tables)
    ensures (forall i :: 0 <= i < |stage| ==> StageFits(tables, stage, i)) <==>
      && (forall i :: 0 <= i < |stage| ==> NamesRows(tables, stage[i].table, stage[i].keys) && stage[i].table != "Workspace")
      && StagesApart(stage)
  {
    hide StageFits, NamesRows;
    forall n | 0 <= n < |stage|
      ensures StageFits(tables, stage, n) <==>
        && NamesRows(tables, stage[n].table, stage[n].keys) && stage[n].table != "Workspace"
        && forall i, k :: 0 <= i < n && stage[i].table == stage[n].table && k in stage[i].keys ==> k !in stage[n].keys
    {
      StageFitsExactly(tables, stage, n);
    }
  }

  lemma DetachFitsExactly(tables: seq<Table>, pinned: set<(string, nat)>, stage: seq<Stage>, detach: seq<Detach>, n: nat)
    requires NamesDistinct(tables) && n < |detach|
    ensures DetachFits(tables, pinned, StagedUpTo(stage, |stage|), detach, n) <==>
      && NamesRows(tables, detach[n].table, detach[n].keys) && MayBeEmptied(tables, detach[n].table, detach[n].column, pinned)
      && (forall k :: k in detach[n].keys ==>
            && (forall i :: 0 <= i < n && SameColumn(detach[i], detach[n]) ==> k !in detach[i].keys)
            && (forall i :: 0 <= i < |stage| && stage[i].table == detach[n].table ==> k !in stage[i].keys))
  {
    hide Selects, NamesRows, StagedUpTo, DetachedUpTo;
    SelectsNamesRows(tables, detach[n].table, detach[n].keys);
    forall k ensures (detach[n].table, k) in StagedUpTo(stage, |stage|)
        <==> exists i :: 0 <= i < |stage| && stage[i].table == detach[n].table && k in stage[i].keys
      ensures (detach[n].table, detach[n].column, k) in DetachedUpTo(detach, n)
        <==> exists i :: 0 <= i < n && detach[i].table == detach[n].table && detach[i].column == detach[n].column && k in detach[i].keys
    {
      StagedUpToIs(stage, |stage|, detach[n].table, k);
      DetachedUpToIs(detach, n, detach[n].table, detach[n].column, k);
    }
    if Selects(tables, detach[n].table, detach[n].keys) {
      var t := SelectedTable(tables, detach[n].table, detach[n].keys);
      assert MayBeEmptied(tables, detach[n].table, detach[n].column, pinned) <==> MayDetach(tables[t], detach[n].column, pinned);
    }
  }

  lemma SelectedTable(tables: seq<Table>, name: string, keys: seq<Key>) returns (t: nat)
    requires Selects(tables, name, keys)
    ensures t < |tables| && Position(tables, name, |tables|) == Some(t) && tables[t].name == name
  {
    t := Position(tables, name, |tables|).value;
  }

  // ---------- what remains ----------

  /** A row that stays still refers to one set aside: none of the reference's cells is NULL or emptied, and
      they have the values of a staged row. */
  ghost predicate StillRefers(tables: seq<Table>, stage: seq<Stage>, detach: seq<Detach>, t: nat, row: Row, key: ForeignKey)
    requires t < |tables|
  {
    && !IsStaged(stage, tables[t], row)
    && (forall c :: c in key.columns ==> Cell(row, c) != None && !IsDetached(detach, tables[t], row, c))
    && exists u, q :: 0 <= u < |tables| && tables[u].name == key.referencedTable && q in tables[u].rows
         && IsStaged(stage, tables[u], q) && Project(q, key.referencedColumns) == Project(row, key.columns)
  }

  /** The rows that stay, with emptied cells, in order. */
  lemma {:induction false} RemainingAre(table: Table, staged: StagedKeys, detached: DetachedKeys, n: nat, r: Row)
    requires n <= |table.rows|
    ensures r in RemainingUpTo(table, staged, detached, n) <==>
      exists i :: 0 <= i < n && (table.name, KeyOf(table, table.rows[i])) !in staged && r == Nulled(table, table.rows[i], detached)
  {
    hide Nulled, KeyOf;
    if n > 0 {
      RemainingAre(table, staged, detached, n - 1, r);
    }
  }

  lemma NulledRefers(tables: seq<Table>, stage: seq<Stage>, detach: seq<Detach>, t: nat, row: Row, key: ForeignKey)
    requires SourceAccepted(tables) && t < |tables| && row in tables[t].rows && key in tables[t].foreignKeys
    ensures var staged, detached := StagedUpTo(stage, |stage|), DetachedUpTo(detach, |detach|);
      (tables[t].name, KeyOf(tables[t], row)) !in staged && Dangles(tables, staged, key, Nulled(tables[t], row, detached))
      <==> StillRefers(tables, stage, detach, t, row, key)
  {
    hide StagedUpTo, DetachedUpTo, KeysDistinct;
    var staged, detached := StagedUpTo(stage, |stage|), DetachedUpTo(detach, |detach|);
    forall u, q | 0 <= u < |tables| ensures (tables[u].name, KeyOf(tables[u], q)) in staged <==> IsStaged(stage, tables[u], q) {
      StagedUpToIs(stage, |stage|, tables[u].name, KeyOf(tables[u], q));
    }
    forall c: nat ensures (tables[t].name, c, KeyOf(tables[t], row)) in detached <==> IsDetached(detach, tables[t], row, c) {
      DetachedUpToIs(detach, |detach|, tables[t].name, c, KeyOf(tables[t], row));
    }
    assert KeyFits(tables[t], key);
    var now := Nulled(tables[t], row, detached);
    forall i | 0 <= i < |key.columns|
      ensures Project(now, key.columns)[i] == if IsDetached(detach, tables[t], row, key.columns[i]) then None else Cell(row, key.columns[i])
    {
      assert key.columns[i] in key.columns;
    }
    if forall c :: c in key.columns ==> Cell(row, c) != None && !IsDetached(detach, tables[t], row, c) {
      assert Project(now, key.columns) == Project(row, key.columns);
      assert !HasNull(Project(now, key.columns));
    } else {
      var c :| c in key.columns && (Cell(row, c) == None || IsDetached(detach, tables[t], row, c));
      var i :| 0 <= i < |key.columns| && key.columns[i] == c;
      assert Project(now, key.columns)[i] == None;
    }
  }

  /** A preparation is accepted exactly when every request names rows of a table, each once and no row twice;
      Workspace is not set aside; only cells that may be emptied are, of rows that stay; and no row that
      stays still refers to one set aside. */
  lemma AcceptedExactly(tables: seq<Table>, pinned: set<(string, nat)>, stage: seq<Stage>, detach: seq<Detach>)
    requires SourceAccepted(tables)
    ensures Acceptable(tables, pinned, stage, detach) <==>
      && (forall i :: 0 <= i < |stage| ==> NamesRows(tables, stage[i].table, stage[i].keys) && stage[i].table != "Workspace")
      && (forall i :: 0 <= i < |detach| ==>
            NamesRows(tables, detach[i].table, detach[i].keys) && MayBeEmptied(tables, detach[i].table, detach[i].column, pinned))
      && StagesApart(stage) && DetachesApart(detach) && NoneBoth(stage, detach)
      && (forall t, row, key :: 0 <= t < |tables| && row in tables[t].rows && key in tables[t].foreignKeys ==>
            !StillRefers(tables, stage, detach, t, row, key))
  {
    hide NamesRows, MayBeEmptied, DetachFits, StageFits, StillRefers, Dangles, StagedUpTo, DetachedUpTo, KeysDistinct;
    StagesFitExactly(tables, stage);
    forall n | 0 <= n < |detach|
      ensures DetachFits(tables, pinned, StagedUpTo(stage, |stage|), detach, n) <==>
        && NamesRows(tables, detach[n].table, detach[n].keys) && MayBeEmptied(tables, detach[n].table, detach[n].column, pinned)
        && (forall k :: k in detach[n].keys ==>
              && (forall i :: 0 <= i < n && SameColumn(detach[i], detach[n]) ==> k !in detach[i].keys)
              && (forall i :: 0 <= i < |stage| && stage[i].table == detach[n].table ==> k !in stage[i].keys))
    {
      DetachFitsExactly(tables, pinned, stage, detach, n);
    }
    RemainingSurvive(tables, stage, detach);
  }

  lemma RemainingSurvive(tables: seq<Table>, stage: seq<Stage>, detach: seq<Detach>)
    requires SourceAccepted(tables)
    ensures var staged, detached := StagedUpTo(stage, |stage|), DetachedUpTo(detach, |detach|);
      (forall t :: 0 <= t < |tables| ==> TableSurvives(tables, staged, PublishedTable(tables[t], staged, detached)))
      <==> forall t, row, key :: 0 <= t < |tables| && row in tables[t].rows && key in tables[t].foreignKeys ==>
             !StillRefers(tables, stage, detach, t, row, key)
  {
    hide StillRefers, Dangles, StagedUpTo, DetachedUpTo, KeysDistinct, Nulled, RemainingUpTo, KeyOf, TablesFit;
    var staged, detached := StagedUpTo(stage, |stage|), DetachedUpTo(detach, |detach|);
    forall t, row, key | 0 <= t < |tables| && row in tables[t].rows && key in tables[t].foreignKeys
      ensures (tables[t].name, KeyOf(tables[t], row)) !in staged && Dangles(tables, staged, key, Nulled(tables[t], row, detached))
        <==> StillRefers(tables, stage, detach, t, row, key)
    {
      NulledRefers(tables, stage, detach, t, row, key);
    }
    forall t | 0 <= t < |tables|
      ensures TableSurvives(tables, staged, PublishedTable(tables[t], staged, detached)) <==>
        forall row, key :: row in tables[t].rows && key in tables[t].foreignKeys ==> !StillRefers(tables, stage, detach, t, row, key)
    {
      var table := tables[t];
      forall r ensures r in RemainingUpTo(table, staged, detached, |table.rows|) <==>
        exists i :: 0 <= i < |table.rows| && (table.name, KeyOf(table, table.rows[i])) !in staged && r == Nulled(table, table.rows[i], detached)
      {
        RemainingAre(table, staged, detached, |table.rows|, r);
      }
      if TableSurvives(tables, staged, PublishedTable(table, staged, detached)) {
        forall row, key | row in table.rows && key in table.foreignKeys ensures !StillRefers(tables, stage, detach, t, row, key) {
          var i :| 0 <= i < |table.rows| && table.rows[i] == row;
          if (table.name, KeyOf(table, row)) !in staged {
            assert Nulled(table, row, detached) in PublishedTable(table, staged, detached).rows;
          }
        }
      }
    }
  }
}
