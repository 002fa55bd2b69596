/** What the export never holds, and what the rewriting makes of a cell, in terms of the stored rows. */
module TenantMeaning {
  import opened Common
  import opened TenantTables
  import opened TenantSource
  import opened TenantExport
  import opened TenantTransform

  // ---------- the export holds nobody else's rows ----------

  /** Some rule of its table says that the row belongs to another workspace. */
  ghost predicate BelongsElsewhere(source: Source, workspace: string, n: Node) {
    n.table < |source| && exists r, o :: r in source[n.table].rows && r.row == n.row && Some(o) in r.owners && o != workspace
  }

  lemma ForeignMeansElsewhere(source: Source, workspace: string, n: Node)
    ensures ForeignRow(source, workspace, n) <==> BelongsElsewhere(source, workspace, n)
  {
    if ForeignRow(source, workspace, n) {
      var r :| r in source[n.table].rows && r.row == n.row && OwnedElsewhere(r, workspace);
      var o :| o in r.owners && o.Some? && o.value != workspace;
      assert Some(o.value) in r.owners;
    }
    if BelongsElsewhere(source, workspace, n) {
      var r, o :| r in source[n.table].rows && r.row == n.row && Some(o) in r.owners && o != workspace;
      assert OwnedElsewhere(r, workspace);
    }
  }

  /** An export holds no row that belongs to another workspace; a refusal for one names one that does; and
      if the least set has one, nothing is exported. */
  lemma ExportHoldsNoForeignRow(result: ExportResult, source: Source, workspace: string, maxRows: nat)
    requires SourceFits(source) && ExportHolds(result, source, workspace, maxRows)
    ensures result.Exported? ==> forall n :: n in NodesOf(result.tables) ==> !BelongsElsewhere(source, workspace, n)
    ensures result.Rejected? && result.reason.CrossTenant? ==> BelongsElsewhere(source, workspace, result.reason.node)
    ensures UniqueTargets(source) && (exists n :: n in LeastSet(source, workspace) && BelongsElsewhere(source, workspace, n)) ==>
      result.Rejected?
  {
    hide UniqueTargets, BelongsElsewhere, ForeignRow, Needed, LeastSet, SourceFits, Kept, OwnedTablesKeyed, HoldsOwned;
    forall n ensures ForeignRow(source, workspace, n) <==> BelongsElsewhere(source, workspace, n) {
      ForeignMeansElsewhere(source, workspace, n);
    }
    if UniqueTargets(source) {
      ExportsExactlyWhenAllowed(result, source, workspace, maxRows);
    }
  }

  // ---------- what rewriting makes of a cell ----------

  /** The column holds user ids: it is the id of User, or part of a key to User. */
  ghost predicate HoldsUserIds(table: Table, c: nat) {
    (table.name == "User" && c == 0) || exists key :: key in table.foreignKeys && key.referencedTable == "User" && c in key.columns
  }

  /** What the column is set to if it is a fixed one, and what it held otherwise. */
  function Given(o: Options, table: Table, row: Row, c: nat): Value
    requires c < |row|
  {
    if (table.name, c) in o.fixed then Some(o.fixed[(table.name, c)]) else row[c]
  }

  /** The linked user in place of a user, anything else as it is. */
  function LinkedUser(links: Links, v: Value): Value {
    match v
    case None => None
    case Some(id) => Some(if id in links then links[id] else id)
  }

  lemma {:induction false} NoUserKeys(keys: seq<ForeignKey>, c: nat, n: nat)
    requires n <= |keys|
    ensures UserKeys(keys, c, n) == 0 <==> forall k :: 0 <= k < n ==> !(keys[k].referencedTable == "User" && c in keys[k].columns)
  {
    if n > 0 {
      NoUserKeys(keys, c, n - 1);
    }
  }

  lemma TimesIfUserIds(table: Table, c: nat)
    ensures Times(table, c) == 0 <==> !HoldsUserIds(table, c)
  {
    hide UserKeys;
    NoUserKeys(table.foreignKeys, c, |table.foreignKeys|);
    if k :| 0 <= k < |table.foreignKeys| && table.foreignKeys[k].referencedTable == "User" && c in table.foreignKeys[k].columns {
      assert table.foreignKeys[k] in table.foreignKeys;
    }
  }

  /** A cell before its transform: the linked user's id if the column holds user ids - once, unless chained
      links are followed for several keys - and otherwise just what it was given. */
  lemma LinkedMeans(o: Options, table: Table, row: Row, c: nat)
    requires c < |row|
    ensures !HoldsUserIds(table, c) ==> Linked(o, table, c, row[c]) == Given(o, table, row, c)
    ensures HoldsUserIds(table, c) && (NoChains(o.links) || Times(table, c) == 1) ==>
      Linked(o, table, c, row[c]) == LinkedUser(o.links, Given(o, table, row, c))
  {
    hide Times, HoldsUserIds;
    TimesIfUserIds(table, c);
    if HoldsUserIds(table, c) && NoChains(o.links) {
      RelinkedOnce(o.links, Given(o, table, row, c), Times(table, c));
    } else if Times(table, c) == 1 {
      assert RelinkTimes(o.links, Given(o, table, row, c), 0) == Given(o, table, row, c);
    }
  }

  /** An accepted row, cell by cell: a NULL stays, a transform is applied to anything else, and a column
      without one is as it was given and linked. */
  lemma CellsMean(o: Options, table: Table, row: Row, c: nat)
    requires RowFits(o, table, row) && c < |row|
    ensures var before, after := Linked(o, table, c, row[c]), RowAfter(o, table, row)[c];
      && ((table.name, c) !in o.transforms || before.None? ==> after == before)
      && ((table.name, c) in o.transforms && before.Some? ==>
            match o.transforms[(table.name, c)]
            case SetNull => after.None?
            case Replace(replacement) => after.Some? && after == replacement(before.value, row))
  {
    hide Linked;
    assert CellAfter(o, table, row, c) == Some(RowAfter(o, table, row)[c]);
  }

  /** A fixed column that holds no user ids and has no transform is what it is fixed to, whatever it held. */
  lemma FixedColumnsAreFixed(o: Options, table: Table, row: Row, c: nat)
    requires RowFits(o, table, row) && c < |row|
    requires (table.name, c) in o.fixed && !HoldsUserIds(table, c) && (table.name, c) !in o.transforms
    ensures RowAfter(o, table, row)[c] == Some(o.fixed[(table.name, c)])
  {
    hide RowFits, Linked, HoldsUserIds;
    LinkedMeans(o, table, row, c);
    CellsMean(o, table, row, c);
  }

  /** What a fixed column held has no effect on any column, as far as replacements do not look at it. */
  lemma FixedColumnsAreForgotten(o: Options, table: Table, row: Row, other: Row, c: nat)
    requires RowFits(o, table, row) && RowFits(o, table, other) && c < |row| && (table.name, c) !in o.transforms
    requires row[c] == other[c] || (table.name, c) in o.fixed
    ensures RowAfter(o, table, row)[c] == RowAfter(o, table, other)[c]
  {
    hide RelinkTimes, Times;
    CellsMean(o, table, row, c);
    CellsMean(o, table, other, c);
  }

  /** A column that is neither fixed, nor holds user ids, nor has a transform keeps its value. */
  lemma OtherColumnsKeepTheirs(o: Options, table: Table, row: Row, c: nat)
    requires RowFits(o, table, row) && c < |row|
    requires (table.name, c) !in o.fixed && !HoldsUserIds(table, c) && (table.name, c) !in o.transforms
    ensures RowAfter(o, table, row)[c] == row[c]
  {
    hide RowFits, Linked, HoldsUserIds;
    LinkedMeans(o, table, row, c);
    CellsMean(o, table, row, c);
  }

  /** What a cell's transform asks of it. */
  predicate MayTransform(o: Options, table: Table, row: Row, c: nat, before: Value)
    requires c < |table.nullable|
  {
    (table.name, c) in o.transforms && before.Some? ==>
      && c !in table.primaryKey && (table.name, c) !in o.pinned
      && match o.transforms[(table.name, c)]
         case SetNull => table.nullable[c]
         case Replace(replacement) => replacement(before.value, row).Some?
  }

  /** A row is accepted exactly when every key to User is the single id column, no cell is refused as it is
      before its transform, transforms of values are of columns that may have one - not of the primary key,
      not pinned, set to NULL only if nullable, and not refusing the value - and the row is not refused. */
  lemma RowAcceptedExactly(o: Options, table: Table, row: Row)
    requires TableFits(table) && |row| == |table.nullable|
    ensures RowFits(o, table, row) <==>
      && (forall key :: key in table.foreignKeys && key.referencedTable == "User" ==> |key.columns| == 1 && key.referencedColumns == [0])
      && (forall c: nat :: c < |row| ==>
            var before := Linked(o, table, c, row[c]);
            !o.refusesCell(table.name, c, row, before) && MayTransform(o, table, row, c, before))
      && (CellsFit(o, table, row) ==> !o.refusesRow(table.name, row, RowAfter(o, table, row)))
  {
    hide Linked, RowAfter, CellAfter, MayTransform;
    forall c: nat | c < |row|
      ensures CellAfter(o, table, row, c).Some? <==>
        var before := Linked(o, table, c, row[c]);
        !o.refusesCell(table.name, c, row, before) && MayTransform(o, table, row, c, before)
    {
      CellAccepted(o, table, row, c);
    }
  }

  lemma CellAccepted(o: Options, table: Table, row: Row, c: nat)
    requires c < |row| && c < |table.nullable|
    ensures CellAfter(o, table, row, c).Some? <==>
      var before := Linked(o, table, c, row[c]);
      !o.refusesCell(table.name, c, row, before) && MayTransform(o, table, row, c, before)
  {
    hide Linked;
  }
}
