/** The source database as the export sees it, and the set of rows a workspace's export must hold. */
module TenantSource {
  import opened Common
  import opened TenantTables

  /** A stored row with what each ownership rule of its table says about it. */
  datatype SourceRow = SourceRow(row: Row, owners: seq<Value>)

  /** transfers: the manifest copies or transforms this table. owned: it has ownership rules. Rows are
      listed in primary-key order. */
  datatype SourceTable = SourceTable(name: string, primaryKey: seq<nat>, foreignKeys: seq<ForeignKey>, transfers: bool,
                                     owned: bool, rows: seq<SourceRow>)

  type Source = seq<SourceTable>

  function PrimaryOf(table: SourceTable, row: Row): Key {
    Project(row, table.primaryKey)
  }

  predicate OwnedBy(r: SourceRow, workspace: string) {
    Some(workspace) in r.owners
  }

  predicate OwnedElsewhere(r: SourceRow, workspace: string) {
    exists o :: o in r.owners && o.Some? && o.value != workspace
  }

  /** What the database itself enforces: one table per name, one row per primary key. */
  ghost predicate SourceFits(source: Source) {
    && (forall t, u :: 0 <= t < u < |source| ==> source[t].name != source[u].name)
    && forall t :: 0 <= t < |source| ==> RowsDistinct(source[t]) && OwnersFit(source[t])
  }

  /** Without ownership rules no row has an owner. */
  ghost predicate OwnersFit(table: SourceTable) {
    !table.owned ==> forall r :: r in table.rows ==> r.owners == []
  }

  ghost predicate RowsDistinct(table: SourceTable) {
    Apart(table, table.rows)
  }

  ghost predicate Apart(table: SourceTable, rows: seq<SourceRow>) {
    && (forall i, j :: 0 <= i < j < |rows| ==> rows[i].row != rows[j].row)
    && (table.primaryKey != [] ==>
          forall i, j :: 0 <= i < j < |rows| ==> PrimaryOf(table, rows[i].row) != PrimaryOf(table, rows[j].row))
  }

  ghost predicate IsStored(source: Source, n: Node) {
    n.table < |source| && exists r :: r in source[n.table].rows && r.row == n.row
  }

  /** A non-NULL reference of n finds m. */
  ghost predicate Points(source: Source, n: Node, key: ForeignKey, m: Node) {
    && !HasNull(Project(n.row, key.columns))
    && IsStored(source, m) && source[m.table].name == key.referencedTable
    && Project(m.row, key.referencedColumns) == Project(n.row, key.columns)
  }

  ghost predicate HoldsOwned(rows: set<Node>, source: Source, workspace: string) {
    forall t, r :: 0 <= t < |source| && source[t].transfers && r in source[t].rows && OwnedBy(r, workspace) ==>
      Node(t, r.row) in rows
  }

  ghost predicate HasKey(source: Source, n: Node, key: ForeignKey) {
    n.table < |source| && key in source[n.table].foreignKeys
  }

  /** Contains the workspace's rows and everything any of its rows refers to. */
  ghost predicate Complete(rows: set<Node>, source: Source, workspace: string) {
    && HoldsOwned(rows, source, workspace)
    && forall n, key, m :: n in rows && HasKey(source, n, key) && Points(source, n, key, m) ==> m in rows
  }

  /** In every complete set. */
  ghost predicate Needed(n: Node, source: Source, workspace: string) {
    forall rows :: Complete(rows, source, workspace) ==> n in rows
  }

  ghost function AllRows(source: Source): (rows: set<Node>)
    ensures forall n :: n in rows <==> IsStored(source, n)
  {
    set t, r | 0 <= t < |source| && r in source[t].rows :: Node(t, r.row)
  }

  /** The stored rows that every complete set holds. */
  ghost function LeastSet(source: Source, workspace: string): set<Node> {
    set n | n in AllRows(source) && Needed(n, source, workspace)
  }

  lemma AllRowsAreComplete(source: Source, workspace: string)
    ensures Complete(AllRows(source), source, workspace)
  {
    hide HasKey;
    forall t, r | 0 <= t < |source| && source[t].transfers && r in source[t].rows && OwnedBy(r, workspace)
      ensures Node(t, r.row) in AllRows(source)
    {
      assert IsStored(source, Node(t, r.row));
    }
  }

  /** The least complete set exists: it is complete, and inside every complete set. */
  lemma LeastSetIsLeast(source: Source, workspace: string)
    ensures Complete(LeastSet(source, workspace), source, workspace)
    ensures forall rows :: Complete(rows, source, workspace) ==> LeastSet(source, workspace) <= rows
  {
    hide Complete, AllRows;
    var least := LeastSet(source, workspace);
    AllRowsAreComplete(source, workspace);
    forall t, r | 0 <= t < |source| && source[t].transfers && r in source[t].rows && OwnedBy(r, workspace)
      ensures Node(t, r.row) in least
    {
      OwnedIsNeeded(source, workspace, t, r);
    }
    forall n, key, m | n in least && HasKey(source, n, key) && Points(source, n, key, m) ensures m in least {
      PointedIsNeeded(source, workspace, n, key, m);
    }
    CompleteBySteps(least, source, workspace);
  }

  lemma OwnedIsNeeded(source: Source, workspace: string, t: nat, r: SourceRow)
    requires t < |source| && source[t].transfers && r in source[t].rows && OwnedBy(r, workspace)
    ensures Needed(Node(t, r.row), source, workspace) && IsStored(source, Node(t, r.row))
  {
    hide OwnedBy;
  }

  lemma PointedIsNeeded(source: Source, workspace: string, n: Node, key: ForeignKey, m: Node)
    requires Needed(n, source, workspace) && HasKey(source, n, key) && Points(source, n, key, m)
    ensures Needed(m, source, workspace) && IsStored(source, m)
  {
    hide HoldsOwned;
  }

  lemma CompleteBySteps(rows: set<Node>, source: Source, workspace: string)
    requires HoldsOwned(rows, source, workspace)
    requires forall n, key, m :: n in rows && HasKey(source, n, key) && Points(source, n, key, m) ==> m in rows
    ensures Complete(rows, source, workspace)
  {
  }

  /** Rows of a query, in order. */
  function Select(rows: seq<SourceRow>, wanted: SourceRow -> bool): (found: seq<SourceRow>)
    ensures forall r :: r in found <==> r in rows && wanted(r)
  {
    if rows == [] then []
    else
      var n := |rows| - 1;
      assert rows == rows[..n] + [rows[n]];
      if wanted(rows[n]) then Select(rows[..n], wanted) + [rows[n]] else Select(rows[..n], wanted)
  }

  /** LIMIT n. */
  function Limit(rows: seq<SourceRow>, n: nat): (found: seq<SourceRow>)
    ensures |found| <= n && (|rows| <= n ==> found == rows)
  {
    if |rows| <= n then rows else rows[..n]
  }

  lemma {:induction false} SelectKeepsApart(table: SourceTable, rows: seq<SourceRow>, wanted: SourceRow -> bool)
    requires Apart(table, rows)
    ensures Apart(table, Select(rows, wanted))
  {
    hide PrimaryOf;
    if rows != [] {
      var n := |rows| - 1;
      var before := rows[..n];
      SelectKeepsApart(table, before, wanted);
      if wanted(rows[n]) {
        ApartMore(table, Select(before, wanted), rows, n);
      }
    }
  }

  lemma ApartMore(table: SourceTable, found: seq<SourceRow>, rows: seq<SourceRow>, n: nat)
    requires Apart(table, found) && Apart(table, rows) && n < |rows| && forall r :: r in found ==> r in rows[..n]
    ensures Apart(table, found + [rows[n]])
  {
    hide PrimaryOf;
    forall i | 0 <= i < |found|
      ensures found[i].row != rows[n].row
      ensures table.primaryKey != [] ==> PrimaryOf(table, found[i].row) != PrimaryOf(table, rows[n].row)
    {
      assert found[i] in rows[..n];
      var j :| 0 <= j < n && rows[j] == found[i];
    }
  }

  function Named(name: string): SourceTable -> bool {
    (table: SourceTable) => table.name == name
  }
}
