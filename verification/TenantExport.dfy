/** The export's worklist: the workspace's own rows first, then whatever the rows found so far refer
    to, until nothing new turns up. */
module TenantExport {
  import opened Common
  import opened TenantTables
  import opened TenantSource

  datatype Rejection =
    | CrossTenant(node: Node)
    | NoPrimaryKey(table: nat)
    | RowLimit
    | ClosureBlocker(node: Node, key: ForeignKey)
    | Unresolved(node: Node, key: ForeignKey)

  type Indexes = map<(nat, seq<nat>), set<seq<Value>>>

  ghost predicate ForeignRow(source: Source, workspace: string, n: Node) {
    n.table < |source| && exists r :: r in source[n.table].rows && r.row == n.row && OwnedElsewhere(r, workspace)
  }

  /** The rows a reference finds. */
  function Targets(source: Source, target: nat, key: ForeignKey, values: seq<Value>): seq<SourceRow>
    requires target < |source|
  {
    Select(source[target].rows, (r: SourceRow) => Project(r.row, key.referencedColumns) == values)
  }

  ghost predicate RefersToTable(source: Source, n: Node, key: ForeignKey, t: nat) {
    t < |source| && HasKey(source, n, key) && !HasNull(Project(n.row, key.columns)) && source[t].name == key.referencedTable
  }

  /** Tables the export must read: those it looks for owned rows in, and those its rows refer to. */
  ghost predicate Queried(source: Source, workspace: string, t: nat) {
    && t < |source| && source[t].transfers
    && (source[t].owned || exists n, key :: Needed(n, source, workspace) && RefersToTable(source, n, key, t))
  }

  /** A rejection is always the fault of a row that no complete export could leave out. */
  ghost predicate Justified(reason: Rejection, source: Source, workspace: string, maxRows: nat) {
    match reason
    case CrossTenant(n) => Needed(n, source, workspace) && ForeignRow(source, workspace, n)
    case NoPrimaryKey(t) => t < |source| && source[t].primaryKey == [] && Queried(source, workspace, t)
    case RowLimit => forall rows :: Complete(rows, source, workspace) ==> |rows| > maxRows
    case ClosureBlocker(n, key) =>
      && Needed(n, source, workspace) && HasKey(source, n, key) && !HasNull(Project(n.row, key.columns))
      && forall t :: 0 <= t < |source| && source[t].name == key.referencedTable ==> !source[t].transfers
    case Unresolved(n, key) =>
      && Needed(n, source, workspace) && HasKey(source, n, key) && !HasNull(Project(n.row, key.columns))
      && exists t :: 0 <= t < |source| && source[t].name == key.referencedTable
                     && |Targets(source, t, key, Project(n.row, key.columns))| != 1
  }

  // ---------- what the collected state means ----------

  ghost predicate Chosen(n: Node, source: Source, workspace: string) {
    IsStored(source, n) && source[n.table].primaryKey != [] && !ForeignRow(source, workspace, n) && Needed(n, source, workspace)
  }

  ghost predicate SeenHolds(seen: set<Key>, table: SourceTable, rows: seq<Row>) {
    forall k :: k in seen <==> exists r :: r in rows && PrimaryOf(table, r) == k
  }

  ghost predicate IndexHolds(entry: set<seq<Value>>, columns: seq<nat>, rows: seq<Row>) {
    forall v :: v in entry <==> exists r :: r in rows && Project(r, columns) == v
  }

  ghost predicate RowsHold(pending: seq<Node>, rows: seq<seq<Row>>) {
    && (forall n :: n in pending ==> n.table < |rows| && n.row in rows[n.table])
    && (forall t, r :: 0 <= t < |rows| && r in rows[t] ==> Node(t, r) in pending)
    && forall t :: 0 <= t < |rows| ==> NoRepeats(rows[t])
  }

  ghost predicate IndexesHold(indexes: Indexes, rows: seq<seq<Row>>) {
    forall at :: at in indexes ==> at.0 < |rows| && IndexHolds(indexes[at], at.1, rows[at.0])
  }

  ghost predicate Consistent(source: Source, workspace: string, pending: seq<Node>, seen: seq<set<Key>>,
                             rows: seq<seq<Row>>, indexes: Indexes) {
    && SourceFits(source) && |seen| == |rows| == |source|
    && (forall n :: n in pending ==> Chosen(n, source, workspace))
    && NoRepeats(pending)
    && RowsHold(pending, rows)
    && (forall t :: 0 <= t < |source| ==> SeenHolds(seen[t], source[t], rows[t]))
    && IndexesHold(indexes, rows)
  }

  function Indexed(indexes: Indexes, t: nat, row: Row): Indexes {
    map at | at in indexes :: if at.0 == t then indexes[at] + {Project(row, at.1)} else indexes[at]
  }

  // ---------- one more row ----------

  lemma RowsHoldMore(pending: seq<Node>, rows: seq<seq<Row>>, n: Node)
    requires RowsHold(pending, rows) && n.table < |rows| && n.row !in rows[n.table]
    ensures RowsHold(pending + [n], rows[n.table := rows[n.table] + [n.row]])
  {
    var more := rows[n.table := rows[n.table] + [n.row]];
    forall t, r | 0 <= t < |more| && r in more[t] ensures Node(t, r) in pending + [n] {
      if t == n.table && r == n.row {
        assert (pending + [n])[|pending|] == n;
      } else {
        assert Node(t, r) in pending;
      }
    }
  }

  lemma SeenHoldsMore(seen: set<Key>, table: SourceTable, rows: seq<Row>, row: Row)
    requires SeenHolds(seen, table, rows)
    ensures SeenHolds(seen + {PrimaryOf(table, row)}, table, rows + [row])
  {
    hide PrimaryOf;
    forall k ensures k in seen + {PrimaryOf(table, row)} <==> exists r :: r in rows + [row] && PrimaryOf(table, r) == k {
      if k in seen {
        var r :| r in rows && PrimaryOf(table, r) == k;
        assert r in rows + [row];
      } else if k == PrimaryOf(table, row) {
        assert row in rows + [row];
      }
    }
  }

  lemma IndexHoldsMore(entry: set<seq<Value>>, columns: seq<nat>, rows: seq<Row>, row: Row)
    requires IndexHolds(entry, columns, rows)
    ensures IndexHolds(entry + {Project(row, columns)}, columns, rows + [row])
  {
    hide Project;
    forall v ensures v in entry + {Project(row, columns)} <==> exists r :: r in rows + [row] && Project(r, columns) == v {
      if v in entry {
        var r :| r in rows && Project(r, columns) == v;
        assert r in rows + [row];
      } else if v == Project(row, columns) {
        assert row in rows + [row];
      }
    }
  }

  lemma IndexesHoldMore(indexes: Indexes, rows: seq<seq<Row>>, t: nat, row: Row)
    requires IndexesHold(indexes, rows) && t < |rows|
    ensures IndexesHold(Indexed(indexes, t, row), rows[t := rows[t] + [row]])
  {
    hide IndexHolds;
    var more := rows[t := rows[t] + [row]];
    forall at | at in indexes ensures at.0 < |more| && IndexHolds(Indexed(indexes, t, row)[at], at.1, more[at.0]) {
      if at.0 == t {
        IndexHoldsMore(indexes[at], at.1, rows[t], row);
      }
    }
  }

  lemma UnseenIsNew(source: Source, workspace: string, pending: seq<Node>, seen: seq<set<Key>>, rows: seq<seq<Row>>,
                    indexes: Indexes, n: Node)
    requires Consistent(source, workspace, pending, seen, rows, indexes) && n.table < |source|
    requires PrimaryOf(source[n.table], n.row) !in seen[n.table]
    ensures n.row !in rows[n.table] && n !in pending
  {
    assert SeenHolds(seen[n.table], source[n.table], rows[n.table]);
  }

  /** A key seen before belongs to this very row. */
  lemma SeenIsPending(source: Source, workspace: string, pending: seq<Node>, seen: seq<set<Key>>, rows: seq<seq<Row>>,
                      indexes: Indexes, n: Node)
    requires Consistent(source, workspace, pending, seen, rows, indexes) && IsStored(source, n)
    requires source[n.table].primaryKey != []
    requires PrimaryOf(source[n.table], n.row) in seen[n.table]
    ensures n in pending
  {
    hide PrimaryOf, Needed, ForeignRow, IndexesHold;
    assert SeenHolds(seen[n.table], source[n.table], rows[n.table]);
    var r :| r in rows[n.table] && PrimaryOf(source[n.table], r) == PrimaryOf(source[n.table], n.row);
    assert Node(n.table, r) in pending && Chosen(Node(n.table, r), source, workspace);
    StoredUnderOneKey(source[n.table], r, n.row);
  }

  lemma StoredUnderOneKey(table: SourceTable, r: Row, q: Row)
    requires RowsDistinct(table) && table.primaryKey != [] && PrimaryOf(table, r) == PrimaryOf(table, q)
    requires (exists a :: a in table.rows && a.row == r) && exists b :: b in table.rows && b.row == q
    ensures r == q
  {
    hide PrimaryOf;
    var a :| a in table.rows && a.row == r;
    var b :| b in table.rows && b.row == q;
    var i :| 0 <= i < |table.rows| && table.rows[i] == a;
    var j :| 0 <= j < |table.rows| && table.rows[j] == b;
  }

  lemma ConsistentMore(source: Source, workspace: string, pending: seq<Node>, seen: seq<set<Key>>,
                       rows: seq<seq<Row>>, indexes: Indexes, n: Node)
    requires Consistent(source, workspace, pending, seen, rows, indexes) && Chosen(n, source, workspace)
    requires PrimaryOf(source[n.table], n.row) !in seen[n.table]
    ensures Consistent(source, workspace, pending + [n], seen[n.table := seen[n.table] + {PrimaryOf(source[n.table], n.row)}],
                       rows[n.table := rows[n.table] + [n.row]], Indexed(indexes, n.table, n.row))
  {
    UnseenIsNew(source, workspace, pending, seen, rows, indexes, n);
    RowsHoldMore(pending, rows, n);
    SeenHoldsMore(seen[n.table], source[n.table], rows[n.table], n.row);
    IndexesHoldMore(indexes, rows, n.table, n.row);
    hide PrimaryOf, RowsHold, SeenHolds, IndexesHold, Indexed, SourceFits, IsStored, ForeignRow, Needed;
  }

  lemma {:induction false} NodeCount(pending: seq<Node>, rows: set<Node>)
    requires NoRepeats(pending) && forall n :: n in pending ==> n in rows
    ensures |pending| <= |rows|
  {
    if pending != [] {
      var last := pending[|pending| - 1];
      NodeCount(pending[..|pending| - 1], rows - {last});
    }
  }

  /** One row too many means that no complete export fits. */
  lemma OverLimit(source: Source, workspace: string, pending: seq<Node>, n: Node, maxRows: nat)
    requires NoRepeats(pending) && n !in pending && |pending| >= maxRows && Needed(n, source, workspace)
    requires forall m :: m in pending ==> Needed(m, source, workspace)
    ensures Justified(RowLimit, source, workspace, maxRows)
  {
    hide Complete;
    forall rows | Complete(rows, source, workspace) ensures |rows| > maxRows {
      NodeCount(pending + [n], rows);
    }
  }

  // ---------- a reference followed ----------

  ghost predicate Followed(source: Source, pending: seq<Node>, n: Node, key: ForeignKey) {
    HasNull(Project(n.row, key.columns)) || exists m :: m in pending && Points(source, n, key, m) && source[m.table].transfers
  }

  ghost predicate AllFollowed(source: Source, pending: seq<Node>, n: Node) {
    forall key :: HasKey(source, n, key) ==> Followed(source, pending, n, key)
  }

  lemma FollowedStays(source: Source, pending: seq<Node>, more: seq<Node>, n: Node, key: ForeignKey)
    requires Followed(source, pending, n, key) && pending <= more
    ensures Followed(source, more, n, key)
  {
    hide Project;
    if !HasNull(Project(n.row, key.columns)) {
      var m :| m in pending && Points(source, n, key, m) && source[m.table].transfers;
      assert m in more;
    }
  }

  /** Values in an index were put there by a row already selected. */
  lemma IndexedIsFollowed(source: Source, workspace: string, pending: seq<Node>, seen: seq<set<Key>>,
                          rows: seq<seq<Row>>, indexes: Indexes,
                          n: Node, key: ForeignKey, target: nat)
    requires Consistent(source, workspace, pending, seen, rows, indexes) && target < |source|
    requires source[target].name == key.referencedTable && source[target].transfers
    requires !HasNull(Project(n.row, key.columns))
    requires (target, key.referencedColumns) in indexes
    requires Project(n.row, key.columns) in indexes[(target, key.referencedColumns)]
    ensures Followed(source, pending, n, key)
  {
    hide Project, Needed, ForeignRow, SeenHolds, SourceFits;
    assert IndexHolds(indexes[(target, key.referencedColumns)], key.referencedColumns, rows[target]);
    var r :| r in rows[target] && Project(r, key.referencedColumns) == Project(n.row, key.columns);
    var m := Node(target, r);
    assert m in pending && Chosen(m, source, workspace);
    assert Points(source, n, key, m);
  }

  lemma TargetIsNeeded(source: Source, workspace: string, n: Node, key: ForeignKey, m: Node)
    requires Needed(n, source, workspace) && HasKey(source, n, key) && Points(source, n, key, m)
    ensures Needed(m, source, workspace)
  {
    hide Points, HoldsOwned;
  }

  // ---------- the exporter ----------

  class Exporter {
    const source: Source
    const workspace: string
    const maxRows: nat
    var rowCount: nat
    var pending: seq<Node>
    var seen: seq<set<Key>>
    var rows: seq<seq<Row>>
    var indexes: Indexes

    ghost predicate Valid()
      reads this
    {
      Consistent(source, workspace, pending, seen, rows, indexes) && rowCount == |pending| <= maxRows
    }

    constructor (source: Source, workspace: string, maxRows: nat)
      requires SourceFits(source)
      ensures Valid() && pending == [] && this.source == source && this.workspace == workspace
      ensures this.maxRows == maxRows
      ensures |rows| == |source| && forall t :: 0 <= t < |source| ==> rows[t] == []
    {
      this.source, this.workspace, this.maxRows := source, workspace, maxRows;
      rowCount, pending := 0, [];
      seen := seq(|source|, t => {});
      rows := seq(|source|, t => []);
      indexes := EmptyIndexes(source);
      new;
      assert IndexesHold(indexes, rows) by {
        hide SourceFits;
        forall at | at in indexes ensures at.0 < |rows| && IndexHolds(indexes[at], at.1, rows[at.0]) {
        }
      }
    }

    /** Adds one row unless its key was seen. */
    method Append(t: nat, r: SourceRow) returns (problem: Option<Rejection>)
      requires Valid() && t < |source| && r in source[t].rows && Needed(Node(t, r.row), source, workspace)
      requires source[t].primaryKey != []
      modifies this
      ensures Valid() && old(pending) <= pending
      ensures problem.Some? ==> Justified(problem.value, source, workspace, maxRows)
      ensures problem.None? ==> Node(t, r.row) in pending
      ensures problem.None? && PrimaryOf(source[t], r.row) !in old(seen[t]) ==>
        rowCount == old(rowCount) + 1 && seen == old(seen)[t := old(seen[t]) + {PrimaryOf(source[t], r.row)}]
      ensures problem.None? && PrimaryOf(source[t], r.row) in old(seen[t]) ==> rowCount == old(rowCount) && seen == old(seen)
      ensures |rows| == |old(rows)| && forall u :: 0 <= u < |rows| && u != t ==> rows[u] == old(rows[u])
    {
      hide RowsHold, SeenHolds, IndexesHold, SourceFits, Needed, RowsDistinct, Complete, Indexed, PrimaryOf,
        OwnedElsewhere;
      var n := Node(t, r.row);
      if OwnedElsewhere(r, workspace) {
        return Some(CrossTenant(n));
      }
      var key := PrimaryOf(source[t], r.row);
      if key in seen[t] {
        SeenIsPending(source, workspace, pending, seen, rows, indexes, n);
        return None;
      }
      UnseenIsNew(source, workspace, pending, seen, rows, indexes, n);
      if rowCount + 1 > maxRows {
        OverLimit(source, workspace, pending, n, maxRows);
        return Some(RowLimit);
      }
      OwnersOfRow(source, workspace, t, r);
      ConsistentMore(source, workspace, pending, seen, rows, indexes, n);
      rowCount := rowCount + 1;
      seen := seen[t := seen[t] + {key}];
      rows := rows[t := rows[t] + [r.row]];
      pending := pending + [n];
      indexes := Indexed(indexes, t, r.row);
      return None;
    }

    /** The rows of one table that belong to the workspace. One row more than the budget is asked
        for, so an overflow is noticed rather than cut off. */
    method SelectOwned(t: nat) returns (problem: Option<Rejection>)
      requires Valid() && t < |source| && source[t].transfers && source[t].owned && seen[t] == {}
      modifies this
      ensures Valid() && old(pending) <= pending
      ensures problem.Some? ==> Justified(problem.value, source, workspace, maxRows)
      ensures problem.None? ==> forall r :: r in source[t].rows && OwnedBy(r, workspace) ==> Node(t, r.row) in pending
      ensures problem.None? ==> source[t].primaryKey != []
      ensures problem.None? ==> |seen| == |source| && forall u :: 0 <= u < |seen| && u != t ==> seen[u] == old(seen[u])
    {
      hide Consistent, OwnedBy, Justified, Needed, PrimaryOf, IsStored, Select, OwnersFit;
      FitsIfValid();
      if source[t].primaryKey == [] {
        problem := Some(NoPrimaryKey(t));
        assert Justified(problem.value, source, workspace, maxRows) by { NoKeyJustified(source, workspace, maxRows, t); }
        return;
      }
      ghost var owned := Select(source[t].rows, (r: SourceRow) => OwnedBy(r, workspace));
      var found := Limit(Select(source[t].rows, (r: SourceRow) => OwnedBy(r, workspace)), maxRows - rowCount + 1);
      SelectKeepsApart(source[t], source[t].rows, (r: SourceRow) => OwnedBy(r, workspace));
      LimitKeepsApart(source[t], owned, maxRows - rowCount + 1);
      for i := 0 to |found|
        invariant Valid() && old(pending) <= pending && |seen| == |source|
        invariant rowCount == old(rowCount) + i
        invariant forall j :: 0 <= j < i ==> Node(t, found[j].row) in pending
        invariant forall j :: i <= j < |found| ==> PrimaryOf(source[t], found[j].row) !in seen[t]
        invariant forall u :: 0 <= u < |seen| && u != t ==> seen[u] == old(seen[u])
      {
        assert found[i] in owned;
        OwnedIsNeeded(source, workspace, t, found[i]);
        ghost var before := pending;
        problem := Append(t, found[i]);
        if problem.Some? { return; }
      }
      assert found == owned;
      forall r | r in source[t].rows && OwnedBy(r, workspace) ensures Node(t, r.row) in pending {
        assert r in owned;
        var j :| 0 <= j < |found| && found[j] == r;
      }
      return None;
    }

    lemma FitsIfValid()
      requires Valid()
      ensures SourceFits(source) && |seen| == |rows| == |source| && rowCount == |pending| <= maxRows
    {
    }

    /** Follows every reference of one selected row. */
    method Follow(n: Node) returns (problem: Option<Rejection>)
      requires Valid() && n in pending
      modifies this
      ensures Valid() && old(pending) <= pending
      ensures problem.Some? ==> Justified(problem.value, source, workspace, maxRows)
      ensures problem.None? ==> AllFollowed(source, pending, n)
    {
      hide Consistent, Needed, IndexesHold, Followed, Targets;
      ChosenIfPending(n);
      var keys := source[n.table].foreignKeys;
      for i := 0 to |keys|
        invariant Valid() && old(pending) <= pending
        invariant forall j :: 0 <= j < i ==> Followed(source, pending, n, keys[j])
      {
        ghost var before := pending;
        problem := FollowKey(n, keys[i]);
        if problem.Some? { return; }
        forall j | 0 <= j < i ensures Followed(source, pending, n, keys[j]) {
          FollowedStays(source, before, pending, n, keys[j]);
        }
      }
      return None;
    }

    lemma ChosenIfPending(n: Node)
      requires Valid() && n in pending
      ensures Chosen(n, source, workspace) && n.table < |source|
    {
    }

    /** Follows one reference: NULL and already-selected targets need nothing; any other must find
        exactly one row of a table that transfers. */
    method FollowKey(n: Node, key: ForeignKey) returns (problem: Option<Rejection>)
      requires Valid() && n in pending && HasKey(source, n, key)
      modifies this
      ensures Valid() && old(pending) <= pending
      ensures problem.Some? ==> Justified(problem.value, source, workspace, maxRows)
      ensures problem.None? ==> Followed(source, pending, n, key)
    {
      hide Consistent, Needed, PrimaryOf, SourceFits, Chosen, Complete;
      var values := Project(n.row, key.columns);
      if HasNull(values) { return None; }
      NeededIfPending(n);
      FitsIfValid();
      var target := Find(source, Named(key.referencedTable), |source|);
      if target.None? || !source[target.value].transfers {
        NameIsUnique(source, target, key.referencedTable);
        return Some(ClosureBlocker(n, key));
      }
      var t := target.value;
      var at := (t, key.referencedColumns);
      if at in indexes && values in indexes[at] {
        IndexedIsFollowed(source, workspace, pending, seen, rows, indexes, n, key, t);
        return None;
      }
      if source[t].primaryKey == [] {
        assert RefersToTable(source, n, key, t);
        return Some(NoPrimaryKey(t));
      }
      var found := Limit(Targets(source, t, key, values), 2);
      if |found| != 1 {
        assert |Targets(source, t, key, values)| != 1;
        return Some(Unresolved(n, key));
      }
      assert found[0] in Targets(source, t, key, values);
      ghost var m := Node(t, found[0].row);
      assert IsStored(source, m);
      assert Points(source, n, key, m);
      TargetIsNeeded(source, workspace, n, key, m);
      problem := Append(t, found[0]);
    }

    lemma NeededIfPending(n: Node)
      requires Valid() && n in pending
      ensures Needed(n, source, workspace)
    {
    }

    /** Rows found on the way are followed too; the list is bounded by the row budget. */
    method Close() returns (problem: Option<Rejection>)
      requires Valid()
      modifies this
      ensures Valid() && old(pending) <= pending
      ensures problem.Some? ==> Justified(problem.value, source, workspace, maxRows)
      ensures problem.None? ==> forall n :: n in pending ==> AllFollowed(source, pending, n)
    {
      hide Consistent, AllFollowed, Justified;
      var index := 0;
      while index < |pending|
        invariant Valid() && old(pending) <= pending && index <= |pending|
        invariant forall i :: 0 <= i < index ==> AllFollowed(source, pending, pending[i])
        decreases maxRows - index
      {
        ghost var before := pending;
        problem := Follow(pending[index]);
        if problem.Some? { return; }
        forall i | 0 <= i < index ensures AllFollowed(source, pending, pending[i]) {
          AllFollowedStays(source, before, pending, pending[i]);
        }
        index := index + 1;
      }
      return None;
    }

    lemma PendingIfValid(t: nat)
      requires Valid() && t < |source| == |rows|
      ensures NoRepeats(rows[t]) && forall r :: r in rows[t] <==> Node(t, r) in pending
      ensures forall n :: n in pending ==> Chosen(n, source, workspace)
    {
    }

    lemma NothingSeen()
      requires Valid() && |rows| == |source| && forall t :: 0 <= t < |source| ==> rows[t] == []
      ensures |seen| == |source| && forall t :: 0 <= t < |source| ==> seen[t] == {}
    {
      hide PrimaryOf;
      forall t | 0 <= t < |source| ensures seen[t] == {} {
        assert SeenHolds(seen[t], source[t], rows[t]);
      }
    }

    /** A closed worklist that started from the owned rows is what an export selects. */
    lemma ClosedSelects(owned: seq<Node>)
      requires Valid() && owned <= pending
      requires forall t, r :: 0 <= t < |source| && IsOwnedRow(source, workspace, t, r) ==> Node(t, r.row) in owned
      requires forall n :: n in pending ==> AllFollowed(source, pending, n)
      requires OwnedTablesKeyed(source, |source|)
      ensures Selects(Selected(pending), source, workspace, maxRows)
    {
      hide Needed, Points, HasKey, IsStored, ForeignRow, IndexesHold, SeenHolds, RowsHold, SourceFits, Project;
      var selected := Selected(pending);
      forall n, key | n in selected && HasKey(source, n, key) ensures Resolves(selected, source, n, key) {
        assert AllFollowed(source, pending, n) && Followed(source, pending, n, key);
        FollowedResolves(source, pending, n, key);
      }
      forall t, r | 0 <= t < |source| && source[t].transfers && r in source[t].rows && OwnedBy(r, workspace)
        ensures Node(t, r.row) in selected
      {
        assert IsOwnedRow(source, workspace, t, r);
      }
      SelectedCount(pending);
    }

    /** Reads the selected rows of one table again, in primary-key order. Finding another number of
        rows than were selected is an error that cannot occur. */
    method Reread(t: nat) returns (sorted: seq<Row>)
      requires Valid() && t < |source|
      ensures sorted == Kept(source[t], t, Selected(pending))
    {
      hide Consistent, Kept;
      FitsIfValid();
      PendingIfValid(t);
      var keys := set r | r in rows[t] :: PrimaryOf(source[t], r);
      var found := Limit(Select(source[t].rows, KeyIn(source[t], keys)), |rows[t]| + 1);
      RereadFindsAll(source, workspace, pending, t, rows[t], keys);
      if |found| != |rows[t]| {
        assert false;
      }
      sorted := RowsOf(found);
    }
  }

  function Selected(pending: seq<Node>): set<Node> {
    set n | n in pending
  }

  function RowsOf(found: seq<SourceRow>): (rows: seq<Row>)
    ensures |rows| == |found| && forall i :: 0 <= i < |rows| ==> rows[i] == found[i].row
  {
    seq(|found|, i requires 0 <= i < |found| => found[i].row)
  }

  lemma FollowedResolves(source: Source, pending: seq<Node>, n: Node, key: ForeignKey)
    requires Followed(source, pending, n, key)
    ensures Resolves(Selected(pending), source, n, key)
  {
    hide Project;
    if !HasNull(Project(n.row, key.columns)) {
      var m :| m in pending && Points(source, n, key, m) && source[m.table].transfers;
      assert m in Selected(pending);
    }
  }

  lemma {:induction false} SelectedCount(pending: seq<Node>)
    ensures |Selected(pending)| <= |pending|
  {
    if pending != [] {
      var n := |pending| - 1;
      SelectedCount(pending[..n]);
      assert Selected(pending) == Selected(pending[..n]) + {pending[n]};
    }
  }

  /** The selected rows of a table in the table's own order. */
  function Kept(table: SourceTable, t: nat, selected: set<Node>): seq<Row> {
    RowsOf(Select(table.rows, NodeIn(t, selected)))
  }

  function NodeIn(t: nat, selected: set<Node>): SourceRow -> bool {
    (r: SourceRow) => Node(t, r.row) in selected
  }

  function KeyIn(table: SourceTable, keys: set<Key>): SourceRow -> bool {
    (r: SourceRow) => PrimaryOf(table, r.row) in keys
  }

  lemma AllFollowedStays(source: Source, pending: seq<Node>, more: seq<Node>, n: Node)
    requires AllFollowed(source, pending, n) && pending <= more
    ensures AllFollowed(source, more, n)
  {
    hide Followed, HasKey;
    forall key | HasKey(source, n, key) ensures Followed(source, more, n, key) {
      FollowedStays(source, pending, more, n, key);
    }
  }

  lemma {:induction false} SelectSame(rows: seq<SourceRow>, p: SourceRow -> bool, q: SourceRow -> bool)
    requires forall r :: r in rows ==> p(r) == q(r)
    ensures Select(rows, p) == Select(rows, q)
  {
    if rows != [] {
      SelectSame(rows[..|rows| - 1], p, q);
    }
  }

  lemma SameElementsSameLength(a: seq<Row>, b: seq<Row>)
    requires NoRepeats(a) && NoRepeats(b) && forall r :: r in a <==> r in b
    ensures |a| == |b|
  {
    RowCount(a);
    RowCount(b);
    assert (set r | r in a) == (set r | r in b);
  }

  lemma {:induction false} RowCount(rows: seq<Row>)
    requires NoRepeats(rows)
    ensures |set r | r in rows| == |rows|
  {
    if rows != [] {
      var n := |rows| - 1;
      RowCount(rows[..n]);
      assert (set r | r in rows) == (set r | r in rows[..n]) + {rows[n]};
    }
  }

  lemma KeptCount(source: Source, workspace: string, pending: seq<Node>, t: nat, rows: seq<Row>)
    requires SourceFits(source) && t < |source| && NoRepeats(rows)
    requires forall n :: n in pending ==> Chosen(n, source, workspace)
    requires forall r :: r in rows <==> Node(t, r) in pending
    ensures |Kept(source[t], t, Selected(pending))| == |rows|
  {
    hide ForeignRow, Needed, PrimaryOf;
    var found := Select(source[t].rows, NodeIn(t, Selected(pending)));
    SelectKeepsApart(source[t], source[t].rows, NodeIn(t, Selected(pending)));
    var kept := RowsOf(found);
    forall r ensures r in kept <==> r in rows {
      if r in kept {
        var i :| 0 <= i < |kept| && kept[i] == r;
        assert found[i] in found;
      }
      if r in rows {
        assert Chosen(Node(t, r), source, workspace);
        var s :| s in source[t].rows && s.row == r;
        assert s in found;
        var i :| 0 <= i < |found| && found[i] == s;
        assert kept[i] == r;
      }
    }
    assert NoRepeats(kept);
    SameElementsSameLength(kept, rows);
  }

  lemma RereadFindsAll(source: Source, workspace: string, pending: seq<Node>, t: nat, rows: seq<Row>, keys: set<Key>)
    requires SourceFits(source) && t < |source| && NoRepeats(rows)
    requires forall n :: n in pending ==> Chosen(n, source, workspace)
    requires forall r :: r in rows <==> Node(t, r) in pending
    requires forall k :: k in keys <==> exists r :: r in rows && PrimaryOf(source[t], r) == k
    ensures var found := Select(source[t].rows, KeyIn(source[t], keys));
      |found| == |rows| && RowsOf(found) == Kept(source[t], t, Selected(pending))
  {
    hide PrimaryOf, ForeignRow, Needed, RowsDistinct;
    var p, q := KeyIn(source[t], keys), NodeIn(t, Selected(pending));
    forall r | r in source[t].rows ensures p(r) == q(r) {
      if p(r) {
        var s :| s in rows && PrimaryOf(source[t], s) == PrimaryOf(source[t], r.row);
        assert Node(t, s) in pending && Chosen(Node(t, s), source, workspace);
        StoredUnderOneKey(source[t], s, r.row);
      }
    }
    SelectSame(source[t].rows, p, q);
    KeptCount(source, workspace, pending, t, rows);
  }

  lemma NoKeyJustified(source: Source, workspace: string, maxRows: nat, t: nat)
    requires t < |source| && source[t].primaryKey == [] && source[t].transfers && source[t].owned
    ensures Justified(NoPrimaryKey(t), source, workspace, maxRows)
  {
  }

  lemma SameNameSameTable(source: Source, t: nat, u: nat)
    requires SourceFits(source) && t < |source| && u < |source| && source[t].name == source[u].name
    ensures t == u
  {
    hide RowsDistinct, OwnersFit;
  }

  lemma NameIsUnique(source: Source, found: Option<nat>, name: string)
    requires SourceFits(source) && found == Find(source, Named(name), |source|)
    requires found.Some? ==> !source[found.value].transfers
    ensures forall t :: 0 <= t < |source| && source[t].name == name ==> !source[t].transfers
  {
    hide SourceFits, Find;
    forall t: nat | t < |source| && source[t].name == name ensures !source[t].transfers {
      assert Named(name)(source[t]);
      assert Named(name)(source[found.value]);
      SameNameSameTable(source, t, found.value);
    }
  }

  lemma LimitKeepsApart(table: SourceTable, rows: seq<SourceRow>, n: nat)
    requires Apart(table, rows)
    ensures Apart(table, Limit(rows, n))
  {
    hide PrimaryOf;
  }

  function EmptyIndexes(source: Source): (indexes: Indexes)
    ensures forall at :: at in indexes ==> at.0 < |source| && indexes[at] == {}
  {
    var used := set t, u, key | 0 <= t < |source| && 0 <= u < |source| && key in source[u].foreignKeys
                                && key.referencedTable == source[t].name :: (t, key.referencedColumns);
    map at: (nat, seq<nat>) | at in used :: {}
  }

  /** Owners are a function of the row: no two stored rows of a table are equal. */
  lemma OwnersOfRow(source: Source, workspace: string, t: nat, r: SourceRow)
    requires SourceFits(source) && t < |source| && r in source[t].rows && !OwnedElsewhere(r, workspace)
    ensures IsStored(source, Node(t, r.row)) && !ForeignRow(source, workspace, Node(t, r.row))
  {
    hide OwnedElsewhere;
    assert RowsDistinct(source[t]);
    var i :| 0 <= i < |source[t].rows| && source[t].rows[i] == r;
    forall q | q in source[t].rows && q.row == r.row ensures q == r {
      var j :| 0 <= j < |source[t].rows| && source[t].rows[j] == q;
    }
  }

  // ---------- the whole export ----------

  datatype ExportResult = Exported(tables: seq<seq<Row>>) | Rejected(reason: Rejection)

  /** The rows an accepted export selects. */
  ghost predicate Selects(selected: set<Node>, source: Source, workspace: string, maxRows: nat) {
    && HoldsOwned(selected, source, workspace)
    && (forall n :: n in selected ==> Chosen(n, source, workspace))
    && (forall n, key :: n in selected && HasKey(source, n, key) ==> Resolves(selected, source, n, key))
    && |selected| <= maxRows
    && OwnedTablesKeyed(source, |source|)
  }

  ghost predicate OwnedTablesKeyed(source: Source, n: nat)
    requires n <= |source|
  {
    forall t :: 0 <= t < n && source[t].transfers && source[t].owned ==> source[t].primaryKey != []
  }

  ghost predicate Resolves(selected: set<Node>, source: Source, n: Node, key: ForeignKey) {
    HasNull(Project(n.row, key.columns)) || exists m :: m in selected && Points(source, n, key, m) && source[m.table].transfers
  }

  /** Either exactly the rows selected, each table in its own order, or a justified rejection. */
  ghost predicate ExportHolds(result: ExportResult, source: Source, workspace: string, maxRows: nat) {
    match result
    case Rejected(reason) => Justified(reason, source, workspace, maxRows)
    case Exported(tables) =>
      && Selects(NodesOf(tables), source, workspace, maxRows) && |tables| == |source|
      && forall t :: 0 <= t < |source| ==> tables[t] == Kept(source[t], t, NodesOf(tables))
  }

  ghost function NodesOf(tables: seq<seq<Row>>): set<Node> {
    set t, r | 0 <= t < |tables| && r in tables[t] :: Node(t, r)
  }

  lemma KeptNodes(tables: seq<seq<Row>>, selected: set<Node>, source: Source)
    requires |tables| == |source| && forall t :: 0 <= t < |source| ==> tables[t] == Kept(source[t], t, selected)
    requires forall n :: n in selected ==> IsStored(source, n)
    ensures NodesOf(tables) == selected
  {
    forall n ensures n in NodesOf(tables) <==> n in selected {
      if n in selected {
        KeptHas(source[n.table], n.table, selected, n.row);
      }
      if n in NodesOf(tables) {
        KeptOnly(source[n.table], n.table, selected, n.row);
      }
    }
  }

  lemma KeptHas(table: SourceTable, t: nat, selected: set<Node>, row: Row)
    requires Node(t, row) in selected && exists r :: r in table.rows && r.row == row
    ensures row in Kept(table, t, selected)
  {
    var found := Select(table.rows, NodeIn(t, selected));
    var r :| r in table.rows && r.row == row;
    var i :| 0 <= i < |found| && found[i] == r;
    assert Kept(table, t, selected)[i] == row;
  }

  lemma KeptOnly(table: SourceTable, t: nat, selected: set<Node>, row: Row)
    requires row in Kept(table, t, selected)
    ensures Node(t, row) in selected
  {
    var found := Select(table.rows, NodeIn(t, selected));
    var i :| 0 <= i < |found| && found[i].row == row;
    assert found[i] in found;
  }

  method ExportSnapshot(source: Source, workspace: string, maxRows: nat) returns (result: ExportResult)
    requires SourceFits(source)
    ensures ExportHolds(result, source, workspace, maxRows)
  {
    hide Justified, Consistent, SourceFits, Complete, AllFollowed, Needed, IsStored, ForeignRow, Kept;
    var exporter := new Exporter(source, workspace, maxRows);
    exporter.NothingSeen();
    for t := 0 to |source|
      invariant exporter.Valid() && fresh(exporter)
      invariant exporter.source == source && exporter.workspace == workspace && exporter.maxRows == maxRows
      invariant |exporter.seen| == |source| && forall u :: t <= u < |source| ==> exporter.seen[u] == {}
      invariant OwnedTablesKeyed(source, t)
      invariant forall u, r :: 0 <= u < t && IsOwnedRow(source, workspace, u, r) ==> Node(u, r.row) in exporter.pending
    {
      if source[t].transfers && source[t].owned {
        ghost var before := exporter.pending;
        var problem := exporter.SelectOwned(t);
        if problem.Some? { return Rejected(problem.value); }
        forall u, r | 0 <= u < t + 1 && IsOwnedRow(source, workspace, u, r) ensures Node(u, r.row) in exporter.pending {
          assert u < t ==> Node(u, r.row) in before;
        }
      } else {
        NoOwnedRows(source, workspace, t);
      }
    }
    ghost var owned := exporter.pending;
    var problem := exporter.Close();
    if problem.Some? { return Rejected(problem.value); }
    ghost var selected := Selected(exporter.pending);
    exporter.ClosedSelects(owned);
    ghost var all := exporter.pending;
    var tables := [];
    for t := 0 to |source|
      invariant exporter.Valid() && exporter.source == source && exporter.pending == all
      invariant |tables| == t && forall u :: 0 <= u < t ==> tables[u] == Kept(source[u], u, selected)
    {
      var sorted := exporter.Reread(t);
      tables := tables + [sorted];
    }
    SelectedAreStored(selected, source, workspace, maxRows);
    KeptNodes(tables, selected, source);
    result := Exported(tables);
  }

  lemma SelectedAreStored(selected: set<Node>, source: Source, workspace: string, maxRows: nat)
    requires Selects(selected, source, workspace, maxRows)
    ensures forall n :: n in selected ==> IsStored(source, n)
  {
    hide Needed, ForeignRow, HoldsOwned, Resolves;
  }

  ghost predicate IsOwnedRow(source: Source, workspace: string, t: nat, r: SourceRow) {
    t < |source| && source[t].transfers && r in source[t].rows && OwnedBy(r, workspace)
  }

  lemma NoOwnedRows(source: Source, workspace: string, t: nat)
    requires SourceFits(source) && t < |source| && !(source[t].transfers && source[t].owned)
    ensures forall r :: !IsOwnedRow(source, workspace, t, r)
  {
    hide RowsDistinct;
  }

  // ---------- what an export is ----------

  /** Referenced columns identify a row, as their unique constraints require. */
  ghost predicate UniqueTargets(source: Source) {
    forall n, key, a, b :: HasKey(source, n, key) && Points(source, n, key, a) && Points(source, n, key, b) ==> a == b
  }

  /** The export is the least set that holds the workspace's rows and whatever its rows refer to. */
  lemma ExportIsLeast(selected: set<Node>, source: Source, workspace: string, maxRows: nat)
    requires Selects(selected, source, workspace, maxRows) && UniqueTargets(source)
    ensures Complete(selected, source, workspace)
    ensures forall rows :: Complete(rows, source, workspace) ==> selected <= rows
  {
    hide Points, HoldsOwned, HasKey, IsStored, ForeignRow, Project;
    forall n, key, m | n in selected && HasKey(source, n, key) && Points(source, n, key, m) ensures m in selected {
      assert Resolves(selected, source, n, key);
      NotNullIfPoints(source, n, key, m);
      var a :| a in selected && Points(source, n, key, a) && source[a.table].transfers;
      assert a == m;
    }
    forall rows | Complete(rows, source, workspace) ensures selected <= rows {
      forall n | n in selected ensures n in rows {
        assert Chosen(n, source, workspace);
      }
    }
  }

  lemma NotNullIfPoints(source: Source, n: Node, key: ForeignKey, m: Node)
    requires Points(source, n, key, m)
    ensures !HasNull(Project(n.row, key.columns)) && m.table < |source|
  {
  }

  /** What has to hold for an export of these rows to go through. */
  ghost predicate Exportable(rows: set<Node>, source: Source, workspace: string, maxRows: nat) {
    && |rows| <= maxRows
    && (forall n :: n in rows ==> !ForeignRow(source, workspace, n))
    && (forall n, key :: n in rows && HasKey(source, n, key) ==> Resolvable(source, n, key))
    && QueriedKeyed(source, workspace)
  }

  ghost predicate QueriedKeyed(source: Source, workspace: string) {
    forall t: nat :: Queried(source, workspace, t) ==> source[t].primaryKey != []
  }

  /** NULL, or a reference to exactly one row of a table that transfers. */
  ghost predicate Resolvable(source: Source, n: Node, key: ForeignKey) {
    || HasNull(Project(n.row, key.columns))
    || exists t :: 0 <= t < |source| && source[t].name == key.referencedTable && source[t].transfers
                   && |Targets(source, t, key, Project(n.row, key.columns))| == 1
  }

  /** A rejected export could not have gone through. */
  lemma RejectionIsRight(reason: Rejection, source: Source, workspace: string, maxRows: nat)
    requires SourceFits(source) && Justified(reason, source, workspace, maxRows)
    ensures !Exportable(LeastSet(source, workspace), source, workspace, maxRows)
  {
    hide Complete, ForeignRow, Queried, Targets, Project, HasNull, RowsDistinct, LeastSet;
    var least := LeastSet(source, workspace);
    LeastSetIsLeast(source, workspace);
    match reason
    case CrossTenant(n) => assert n in least;
    case NoPrimaryKey(t) =>
    case RowLimit =>
    case ClosureBlocker(n, key) => assert n in least; assert !Resolvable(source, n, key);
    case Unresolved(n, key) => assert n in least; assert !Resolvable(source, n, key);
  }

  /** An accepted export selects a set that was allowed to go. */
  lemma AcceptedIsExportable(selected: set<Node>, source: Source, workspace: string, maxRows: nat)
    requires SourceFits(source) && UniqueTargets(source) && Selects(selected, source, workspace, maxRows)
    ensures Exportable(selected, source, workspace, maxRows)
  {
    hide ForeignRow, Queried, Needed, HoldsOwned, IsStored, Points, HasKey, Project, HasNull, UniqueTargets, SourceFits;
    forall n, key | n in selected && HasKey(source, n, key) ensures Resolvable(source, n, key) {
      assert Resolves(selected, source, n, key);
      ResolvesIsResolvable(selected, source, n, key);
    }
    AcceptedIsKeyed(selected, source, workspace, maxRows);
  }

  lemma ResolvesIsResolvable(selected: set<Node>, source: Source, n: Node, key: ForeignKey)
    requires SourceFits(source) && UniqueTargets(source) && HasKey(source, n, key) && Resolves(selected, source, n, key)
    ensures Resolvable(source, n, key)
  {
    hide Project, HasNull, UniqueTargets, SourceFits;
    if !HasNull(Project(n.row, key.columns)) {
      var m :| m in selected && Points(source, n, key, m) && source[m.table].transfers;
      OneTarget(source, n, key, m);
    }
  }

  lemma AcceptedIsKeyed(selected: set<Node>, source: Source, workspace: string, maxRows: nat)
    requires SourceFits(source) && UniqueTargets(source) && Selects(selected, source, workspace, maxRows)
    ensures QueriedKeyed(source, workspace)
  {
    hide ForeignRow, Needed, Complete, HoldsOwned, Project, HasNull, UniqueTargets, RowsDistinct, OwnersFit;
    ExportIsLeast(selected, source, workspace, maxRows);
    forall t: nat | Queried(source, workspace, t) ensures source[t].primaryKey != [] {
      if !source[t].owned {
        var n, key :| Needed(n, source, workspace) && RefersToTable(source, n, key, t);
        NeededIsIn(n, selected, source, workspace);
        assert Resolves(selected, source, n, key);
        var m :| m in selected && Points(source, n, key, m) && source[m.table].transfers;
        assert Chosen(m, source, workspace);
      }
    }
  }

  lemma NeededIsIn(n: Node, rows: set<Node>, source: Source, workspace: string)
    requires Needed(n, source, workspace) && Complete(rows, source, workspace)
    ensures n in rows
  {
  }

  /** A reference into a column list that identifies rows finds no second row. */
  lemma OneTarget(source: Source, n: Node, key: ForeignKey, m: Node)
    requires SourceFits(source) && UniqueTargets(source) && HasKey(source, n, key) && Points(source, n, key, m)
    ensures |Targets(source, m.table, key, Project(n.row, key.columns))| == 1
  {
    hide Project, PrimaryOf, UniqueTargets;
    var t, values := m.table, Project(n.row, key.columns);
    var found := Targets(source, t, key, values);
    assert RowsDistinct(source[t]);
    SelectKeepsApart(source[t], source[t].rows, (r: SourceRow) => Project(r.row, key.referencedColumns) == values);
    var r :| r in source[t].rows && r.row == m.row;
    assert r in found;
    if |found| > 1 {
      FoundIsPointed(source, n, key, m, found[0]);
      FoundIsPointed(source, n, key, m, found[1]);
      assert false;
    }
  }

  lemma FoundIsPointed(source: Source, n: Node, key: ForeignKey, m: Node, r: SourceRow)
    requires UniqueTargets(source) && HasKey(source, n, key) && Points(source, n, key, m)
    requires r in Targets(source, m.table, key, Project(n.row, key.columns))
    ensures r.row == m.row
  {
    hide Project, HasNull;
    assert Points(source, n, key, Node(m.table, r.row));
  }

  /** An export goes through exactly when the least complete set of rows may go. */
  lemma ExportsExactlyWhenAllowed(result: ExportResult, source: Source, workspace: string, maxRows: nat)
    requires SourceFits(source) && UniqueTargets(source) && ExportHolds(result, source, workspace, maxRows)
    ensures result.Exported? <==> Exportable(LeastSet(source, workspace), source, workspace, maxRows)
    ensures result.Exported? ==> NodesOf(result.tables) == LeastSet(source, workspace)
  {
    hide UniqueTargets, Needed, Complete, SourceFits, Exportable, Justified, Kept, LeastSet;
    var least := LeastSet(source, workspace);
    LeastSetIsLeast(source, workspace);
    match result
    case Rejected(reason) => RejectionIsRight(reason, source, workspace, maxRows);
    case Exported(tables) =>
      var selected := NodesOf(tables);
      ExportIsLeast(selected, source, workspace, maxRows);
      AcceptedIsExportable(selected, source, workspace, maxRows);
      assert least <= selected && selected <= least;
      assert selected == least;
  }
}
