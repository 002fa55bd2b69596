/** Preparing a snapshot for publication: chosen rows are set aside, chosen nullable references are
    set to NULL, and what was taken out is recorded so that it can be put back. */
module TenantPublication {
  import opened Common
  import opened TenantTables

  datatype Stage = Stage(table: string, keys: seq<Key>)
  datatype Detach = Detach(table: string, keys: seq<Key>, column: nat)

  datatype StagedBatch = StagedBatch(table: string, keys: seq<Key>, rows: seq<Row>)
  datatype DetachedBatch = DetachedBatch(table: string, column: nat, keys: seq<Key>, values: seq<Value>)
  datatype Publication = Publication(tables: seq<Table>, staged: seq<StagedBatch>, detached: seq<DetachedBatch>)

  type StagedKeys = set<(string, Key)>
  type DetachedKeys = set<(string, nat, Key)>

  // ---------- tables and their rows by key ----------

  function IndexUpTo(table: Table, rows: seq<Row>, n: nat): (index: map<Key, Row>)
    requires n <= |rows|
    ensures forall k :: k in index ==> index[k] in rows && KeyOf(table, index[k]) == k
    ensures forall i :: 0 <= i < n ==> KeyOf(table, rows[i]) in index
  {
    if n == 0 then map[] else IndexUpTo(table, rows, n - 1)[KeyOf(table, rows[n - 1]) := rows[n - 1]]
  }

  function Index(table: Table): map<Key, Row> {
    IndexUpTo(table, table.rows, |table.rows|)
  }

  lemma IndexFinds(table: Table, row: Row)
    requires KeysDistinct(table) && row in table.rows
    ensures KeyOf(table, row) in Index(table) && Index(table)[KeyOf(table, row)] == row
  {
    hide KeyOf;
    var i :| 0 <= i < |table.rows| && table.rows[i] == row;
    var found := Index(table)[KeyOf(table, row)];
    var j :| 0 <= j < |table.rows| && table.rows[j] == found;
  }

  function Position(tables: seq<Table>, name: string, n: nat): (found: Option<nat>)
    requires n <= |tables|
    ensures found.Some? ==> found.value < n && tables[found.value].name == name
    ensures found.None? ==> forall t :: 0 <= t < n ==> tables[t].name != name
  {
    Find(tables, (table: Table) => table.name == name, n)
  }

  lemma PositionOf(tables: seq<Table>, t: nat)
    requires NamesDistinct(tables) && t < |tables|
    ensures Position(tables, tables[t].name, |tables|) == Some(t)
  {
  }

  // ---------- what a request must look like ----------

  /** The requested keys are distinct rows of a known table. */
  ghost predicate Selects(tables: seq<Table>, name: string, keys: seq<Key>) {
    var t := Position(tables, name, |tables|);
    t.Some? && keys != [] && NoRepeats(keys) && forall k :: k in keys ==> k in Index(tables[t.value])
  }

  function StagedUpTo(stage: seq<Stage>, n: nat): StagedKeys
    requires n <= |stage|
  {
    if n == 0 then {}
    else
      StagedUpTo(stage, n - 1) + StageKeys(stage[n - 1].table, stage[n - 1].keys)
  }

  function StageKeys(name: string, keys: seq<Key>): StagedKeys {
    set k | k in keys :: (name, k)
  }

  function DetachKeys(name: string, column: nat, keys: seq<Key>): DetachedKeys {
    set k | k in keys :: (name, column, k)
  }

  function DetachedUpTo(detach: seq<Detach>, n: nat): DetachedKeys
    requires n <= |detach|
  {
    if n == 0 then {}
    else
      DetachedUpTo(detach, n - 1) + DetachKeys(detach[n - 1].table, detach[n - 1].column, detach[n - 1].keys)
  }

  lemma {:induction false} StagedByRequest(stage: seq<Stage>, n: nat, name: string, k: Key) returns (i: nat)
    requires n <= |stage| && (name, k) in StagedUpTo(stage, n)
    ensures i < n && stage[i].table == name && k in stage[i].keys
  {
    if stage[n - 1].table == name && k in stage[n - 1].keys {
      i := n - 1;
    } else {
      i := StagedByRequest(stage, n - 1, name, k);
    }
  }

  lemma {:induction false} DetachedByRequest(detach: seq<Detach>, n: nat, name: string, c: nat, k: Key) returns (i: nat)
    requires n <= |detach| && (name, c, k) in DetachedUpTo(detach, n)
    ensures i < n && detach[i].table == name && detach[i].column == c && k in detach[i].keys
  {
    if detach[n - 1].table == name && detach[n - 1].column == c && k in detach[n - 1].keys {
      i := n - 1;
    } else {
      i := DetachedByRequest(detach, n - 1, name, c, k);
    }
  }

  ghost predicate StageFits(tables: seq<Table>, stage: seq<Stage>, n: nat)
    requires n < |stage|
  {
    && Selects(tables, stage[n].table, stage[n].keys) && stage[n].table != "Workspace"
    && forall k :: k in stage[n].keys ==> (stage[n].table, k) !in StagedUpTo(stage, n)
  }

  /** Only a nullable column of some reference outside the primary key, and not one the policy pins,
      may be set to NULL. */
  predicate MayDetach(table: Table, column: nat, pinned: set<(string, nat)>) {
    && column < |table.nullable| && table.nullable[column]
    && column !in table.primaryKey && (table.name, column) !in pinned
    && exists key :: key in table.foreignKeys && column in key.columns
  }

  ghost predicate DetachFits(tables: seq<Table>, pinned: set<(string, nat)>, staged: StagedKeys, detach: seq<Detach>,
                             n: nat)
    requires n < |detach|
  {
    && Selects(tables, detach[n].table, detach[n].keys)
    && MayDetach(tables[Position(tables, detach[n].table, |tables|).value], detach[n].column, pinned)
    && forall k :: k in detach[n].keys ==> KeyMayDetach(staged, DetachedUpTo(detach, n), detach[n].table, detach[n].column, k)
  }

  predicate KeyMayDetach(staged: StagedKeys, detached: DetachedKeys, name: string, column: nat, k: Key) {
    (name, column, k) !in detached && (name, k) !in staged
  }

  // ---------- what is published ----------

  function Nulled(table: Table, row: Row, detached: DetachedKeys): (r: Row)
    ensures |r| == |row|
    ensures forall c :: 0 <= c < |row| ==> r[c] == if (table.name, c, KeyOf(table, row)) in detached then None else row[c]
  {
    seq(|row|, c requires 0 <= c < |row| => if (table.name, c, KeyOf(table, row)) in detached then None else row[c])
  }

  function RemainingUpTo(table: Table, staged: StagedKeys, detached: DetachedKeys, n: nat): (rows: seq<Row>)
    requires n <= |table.rows|
  {
    if n == 0 then []
    else
      var before := RemainingUpTo(table, staged, detached, n - 1);
      var row := table.rows[n - 1];
      if (table.name, KeyOf(table, row)) in staged then before else before + [Nulled(table, row, detached)]
  }

  function PublishedTable(table: Table, staged: StagedKeys, detached: DetachedKeys): Table {
    table.(rows := RemainingUpTo(table, staged, detached, |table.rows|))
  }

  function PublishedTables(tables: seq<Table>, staged: StagedKeys, detached: DetachedKeys): (published: seq<Table>)
    ensures |published| == |tables|
    ensures forall t :: 0 <= t < |tables| ==> published[t] == PublishedTable(tables[t], staged, detached)
  {
    seq(|tables|, t requires 0 <= t < |tables| => PublishedTable(tables[t], staged, detached))
  }

  function LookUp(tables: seq<Table>, name: string, k: Key): Row {
    var t := Position(tables, name, |tables|);
    if t.Some? && k in Index(tables[t.value]) then Index(tables[t.value])[k] else []
  }

  function RowsFor(tables: seq<Table>, name: string, keys: seq<Key>): (rows: seq<Row>)
    ensures |rows| == |keys| && forall i :: 0 <= i < |keys| ==> rows[i] == LookUp(tables, name, keys[i])
  {
    seq(|keys|, i requires 0 <= i < |keys| => LookUp(tables, name, keys[i]))
  }

  function ValuesFor(tables: seq<Table>, name: string, keys: seq<Key>, column: nat): (values: seq<Value>)
    ensures |values| == |keys| && forall i :: 0 <= i < |keys| ==> values[i] == Cell(LookUp(tables, name, keys[i]), column)
  {
    seq(|keys|, i requires 0 <= i < |keys| => Cell(LookUp(tables, name, keys[i]), column))
  }

  function StagedBatches(tables: seq<Table>, stage: seq<Stage>, n: nat): (batches: seq<StagedBatch>)
    requires n <= |stage|
    ensures |batches| == n
    ensures forall i :: 0 <= i < n ==>
      batches[i] == StagedBatch(stage[i].table, stage[i].keys, RowsFor(tables, stage[i].table, stage[i].keys))
  {
    seq(n, i requires 0 <= i < n => StagedBatch(stage[i].table, stage[i].keys, RowsFor(tables, stage[i].table, stage[i].keys)))
  }

  function DetachedBatches(tables: seq<Table>, detach: seq<Detach>, n: nat): (batches: seq<DetachedBatch>)
    requires n <= |detach|
    ensures |batches| == n
    ensures forall i :: 0 <= i < n ==> batches[i] == DetachedBatch(detach[i].table, detach[i].column, detach[i].keys,
                                                                   ValuesFor(tables, detach[i].table, detach[i].keys, detach[i].column))
  {
    seq(n, i requires 0 <= i < n => DetachedBatch(detach[i].table, detach[i].column, detach[i].keys,
                                                  ValuesFor(tables, detach[i].table, detach[i].keys, detach[i].column)))
  }

  /** A surviving non-NULL reference has the value of a staged row. */
  ghost predicate Dangles(tables: seq<Table>, staged: StagedKeys, key: ForeignKey, row: Row) {
    && !HasNull(Project(row, key.columns))
    && exists t, q :: 0 <= t < |tables| && tables[t].name == key.referencedTable && q in tables[t].rows
                      && (tables[t].name, KeyOf(tables[t], q)) in staged
                      && Project(q, key.referencedColumns) == Project(row, key.columns)
  }

  ghost predicate TableSurvives(tables: seq<Table>, staged: StagedKeys, published: Table) {
    forall key, row :: key in published.foreignKeys && row in published.rows ==> !Dangles(tables, staged, key, row)
  }

  ghost predicate SourceAccepted(tables: seq<Table>) {
    TablesFit(tables) && forall t :: 0 <= t < |tables| ==> KeysDistinct(tables[t])
  }

  ghost predicate Requested(tables: seq<Table>, pinned: set<(string, nat)>, stage: seq<Stage>, detach: seq<Detach>) {
    && (forall i :: 0 <= i < |stage| ==> StageFits(tables, stage, i))
    && forall i :: 0 <= i < |detach| ==> DetachFits(tables, pinned, StagedUpTo(stage, |stage|), detach, i)
  }

  ghost predicate Acceptable(tables: seq<Table>, pinned: set<(string, nat)>, stage: seq<Stage>, detach: seq<Detach>) {
    var staged, detached := StagedUpTo(stage, |stage|), DetachedUpTo(detach, |detach|);
    && Requested(tables, pinned, stage, detach)
    && forall t :: 0 <= t < |tables| ==> TableSurvives(tables, staged, PublishedTable(tables[t], staged, detached))
  }

  function Prepared(tables: seq<Table>, stage: seq<Stage>, detach: seq<Detach>): Publication {
    Publication(PublishedTables(tables, StagedUpTo(stage, |stage|), DetachedUpTo(detach, |detach|)),
                StagedBatches(tables, stage, |stage|), DetachedBatches(tables, detach, |detach|))
  }

  // ---------- the loops ----------

  ghost predicate UniqueUpTo(table: Table, n: nat)
    requires n <= |table.rows|
  {
    forall i, j :: 0 <= i < j < n ==> KeyOf(table, table.rows[i]) != KeyOf(table, table.rows[j])
  }

  lemma {:induction false} IndexedCameFrom(table: Table, n: nat, k: Key) returns (i: nat)
    requires n <= |table.rows| && k in IndexUpTo(table, table.rows, n)
    ensures i < n && KeyOf(table, table.rows[i]) == k
  {
    hide KeyOf;
    if KeyOf(table, table.rows[n - 1]) == k {
      i := n - 1;
    } else {
      i := IndexedCameFrom(table, n - 1, k);
    }
  }

  lemma UniqueNext(table: Table, n: nat)
    requires n < |table.rows| && UniqueUpTo(table, n)
    ensures KeyOf(table, table.rows[n]) in IndexUpTo(table, table.rows, n) ==> !KeysDistinct(table)
    ensures KeyOf(table, table.rows[n]) !in IndexUpTo(table, table.rows, n) ==> UniqueUpTo(table, n + 1)
  {
    hide KeyOf, IndexUpTo;
    var k := KeyOf(table, table.rows[n]);
    if k in IndexUpTo(table, table.rows, n) {
      var i := IndexedCameFrom(table, n, k);
    } else {
      forall i | 0 <= i < n ensures KeyOf(table, table.rows[i]) != k {
        assert KeyOf(table, table.rows[i]) in IndexUpTo(table, table.rows, n);
      }
    }
  }

  /** Builds the key index of one table; a repeated key is an error. */
  method IndexTable(table: Table) returns (index: Option<map<Key, Row>>)
    ensures index.Some? <==> KeysDistinct(table)
    ensures index.Some? ==> index.value == Index(table)
  {
    hide KeyOf, KeysDistinct, UniqueUpTo, IndexUpTo;
    var built: map<Key, Row> := map[];
    UniqueNone(table);
    for i := 0 to |table.rows|
      invariant built == IndexUpTo(table, table.rows, i) && UniqueUpTo(table, i)
    {
      var key := KeyOf(table, table.rows[i]);
      UniqueNext(table, i);
      if key in built {
        return None;
      }
      IndexNext(table, i);
      built := built[key := table.rows[i]];
    }
    UniqueAll(table);
    return Some(built);
  }

  lemma UniqueNone(table: Table)
    ensures UniqueUpTo(table, 0) && IndexUpTo(table, table.rows, 0) == map[]
  {
  }

  lemma IndexNext(table: Table, n: nat)
    requires n < |table.rows|
    ensures IndexUpTo(table, table.rows, n + 1) == IndexUpTo(table, table.rows, n)[KeyOf(table, table.rows[n]) := table.rows[n]]
  {
    hide KeyOf;
  }

  lemma UniqueAll(table: Table)
    ensures UniqueUpTo(table, |table.rows|) <==> KeysDistinct(table)
  {
    hide KeyOf;
  }

  /** Looks up the requested rows; unknown tables, unknown keys and repeated keys are errors. */
  method SelectRows(tables: seq<Table>, indexes: seq<map<Key, Row>>, name: string, keys: seq<Key>)
    returns (rows: Option<seq<Row>>)
    requires |indexes| == |tables| && forall t :: 0 <= t < |tables| ==> indexes[t] == Index(tables[t])
    ensures rows.Some? <==> Selects(tables, name, keys)
    ensures rows.Some? ==> rows.value == RowsFor(tables, name, keys)
  {
    hide Index;
    var t := Position(tables, name, |tables|);
    if t.None? || keys == [] {
      return None;
    }
    var seen: set<Key>, found := {}, [];
    for i := 0 to |keys|
      invariant seen == set k | k in keys[..i]
      invariant forall a, b :: 0 <= a < b < i ==> keys[a] != keys[b]
      invariant |found| == i
      invariant forall a :: 0 <= a < i ==> keys[a] in indexes[t.value] && found[a] == LookUp(tables, name, keys[a])
    {
      if keys[i] in seen {
        var a :| 0 <= a < i && keys[a] == keys[i];
        return None;
      }
      if keys[i] !in indexes[t.value] {
        assert keys[i] in keys;
        return None;
      }
      seen := seen + {keys[i]};
      found := found + [indexes[t.value][keys[i]]];
      assert keys[..i + 1] == keys[..i] + [keys[i]];
    }
    return Some(found);
  }

  /** One staging request: none of its rows may be staged already. */
  method StageOne(request: Stage, start: StagedKeys) returns (accepted: bool, staged: StagedKeys)
    requires NoRepeats(request.keys)
    ensures accepted <==> forall k :: k in request.keys ==> (request.table, k) !in start
    ensures accepted ==> staged == start + StageKeys(request.table, request.keys)
  {
    accepted, staged := true, start;
    for j := 0 to |request.keys|
      invariant accepted && staged == start + StageKeys(request.table, request.keys[..j])
      invariant forall a :: 0 <= a < j ==> (request.table, request.keys[a]) !in start
    {
      var k := request.keys[j];
      assert k !in request.keys[..j];
      if (request.table, k) in staged {
        assert k in request.keys;
        return false, {};
      }
      staged := staged + {(request.table, k)};
      assert request.keys[..j + 1] == request.keys[..j] + [k];
    }
    assert request.keys[..|request.keys|] == request.keys;
  }

  method StageRows(tables: seq<Table>, indexes: seq<map<Key, Row>>, stage: seq<Stage>)
    returns (accepted: bool, staged: StagedKeys, batches: seq<StagedBatch>)
    requires |indexes| == |tables| && forall t :: 0 <= t < |tables| ==> indexes[t] == Index(tables[t])
    ensures accepted <==> forall i :: 0 <= i < |stage| ==> StageFits(tables, stage, i)
    ensures accepted ==> staged == StagedUpTo(stage, |stage|) && batches == StagedBatches(tables, stage, |stage|)
  {
    hide Index, RowsFor, NoRepeats, StageKeys;
    accepted, staged, batches := true, {}, [];
    for i := 0 to |stage|
      invariant accepted && forall j :: 0 <= j < i ==> StageFits(tables, stage, j)
      invariant staged == StagedUpTo(stage, i) && batches == StagedBatches(tables, stage, i)
    {
      var request := stage[i];
      var rows := SelectRows(tables, indexes, request.table, request.keys);
      if rows.None? || request.table == "Workspace" {
        assert !StageFits(tables, stage, i);
        return false, {}, [];
      }
      accepted, staged := StageOne(request, staged);
      if !accepted {
        assert !StageFits(tables, stage, i);
        return false, {}, [];
      }
      batches := batches + [StagedBatch(request.table, request.keys, rows.value)];
    }
  }

  // ---------- setting cells to NULL ----------

  ghost predicate OffKey(table: Table, detached: DetachedKeys) {
    forall c, k :: (table.name, c, k) in detached ==> c !in table.primaryKey
  }

  lemma NulledKeepsKey(table: Table, row: Row, detached: DetachedKeys)
    requires OffKey(table, detached)
    ensures KeyOf(table, Nulled(table, row, detached)) == KeyOf(table, row)
  {
    forall i | 0 <= i < |table.primaryKey|
      ensures Cell(Nulled(table, row, detached), table.primaryKey[i]) == Cell(row, table.primaryKey[i])
    {
      assert table.primaryKey[i] in table.primaryKey;
    }
  }

  ghost predicate RowsNulled(table: Table, rows: seq<Row>, detached: DetachedKeys) {
    |rows| == |table.rows| && forall i :: 0 <= i < |rows| ==> rows[i] == Nulled(table, table.rows[i], detached)
  }

  lemma NulledMore(table: Table, row: Row, detached: DetachedKeys, column: nat, k: Key)
    requires column < |row|
    ensures var more := detached + {(table.name, column, k)};
      Nulled(table, row, more) == if KeyOf(table, row) == k then Nulled(table, row, detached)[column := None] else Nulled(table, row, detached)
  {
    hide KeyOf;
  }

  lemma NulledElsewhere(table: Table, row: Row, detached: DetachedKeys, name: string, column: nat, k: Key)
    requires name != table.name
    ensures Nulled(table, row, detached + {(name, column, k)}) == Nulled(table, row, detached)
  {
    hide KeyOf;
  }

  /** Finds the row by its key and sets one of its cells to NULL. */
  method NullCell(table: Table, rows: seq<Row>, k: Key, column: nat,
                  ghost detached: DetachedKeys) returns (changed: seq<Row>)
    requires KeysDistinct(table) && RowsNulled(table, rows, detached) && OffKey(table, detached)
    requires TableFits(table) && column < |table.nullable|
    ensures RowsNulled(table, changed, detached + {(table.name, column, k)})
  {
    hide KeyOf, Nulled;
    changed := rows;
    var i := 0;
    while i < |rows| && KeyOf(table, rows[i]) != k
      invariant 0 <= i <= |rows|
      invariant forall j :: 0 <= j < i ==> KeyOf(table, table.rows[j]) != k
    {
      NulledKeepsKey(table, table.rows[i], detached);
      i := i + 1;
    }
    if i < |rows| {
      NulledKeepsKey(table, table.rows[i], detached);
      assert table.rows[i] in table.rows;
      changed := rows[i := rows[i][column := None]];
    }
    forall j | 0 <= j < |rows| ensures changed[j] == Nulled(table, table.rows[j], detached + {(table.name, column, k)}) {
      assert table.rows[j] in table.rows;
      NulledMore(table, table.rows[j], detached, column, k);
    }
  }

  ghost predicate CurrentHolds(tables: seq<Table>, current: seq<seq<Row>>, detached: DetachedKeys) {
    && |current| == |tables|
    && forall t :: 0 <= t < |tables| ==> OffKey(tables[t], detached) && RowsNulled(tables[t], current[t], detached)
  }

  lemma CurrentHoldsMore(tables: seq<Table>, current: seq<seq<Row>>, detached: DetachedKeys, t: nat, column: nat,
                         k: Key, changed: seq<Row>)
    requires NamesDistinct(tables) && CurrentHolds(tables, current, detached) && t < |tables|
    requires column !in tables[t].primaryKey
    requires RowsNulled(tables[t], changed, detached + {(tables[t].name, column, k)})
    ensures CurrentHolds(tables, current[t := changed], detached + {(tables[t].name, column, k)})
  {
    hide KeyOf, Nulled;
    var more := detached + {(tables[t].name, column, k)};
    forall u | 0 <= u < |tables| && u != t ensures RowsNulled(tables[u], current[u], more) {
      assert tables[u].name != tables[t].name;
      forall i | 0 <= i < |current[u]| ensures current[u][i] == Nulled(tables[u], tables[u].rows[i], more) {
        NulledElsewhere(tables[u], tables[u].rows[i], detached, tables[t].name, column, k);
      }
    }
  }

  lemma CurrentAt(tables: seq<Table>, current: seq<seq<Row>>, detached: DetachedKeys, t: nat)
    requires CurrentHolds(tables, current, detached) && t < |tables|
    ensures |current| == |tables| && OffKey(tables[t], detached) && RowsNulled(tables[t], current[t], detached)
  {
  }

  lemma ColumnMayDetach(table: Table, column: nat, pinned: set<(string, nat)>)
    requires MayDetach(table, column, pinned)
    ensures column < |table.nullable| && column !in table.primaryKey
  {
  }

  /** One detaching request: each cell is set to NULL once, and only in rows that stay. */
  method DetachOne(tables: seq<Table>, t: nat, request: Detach, pinned: set<(string, nat)>, staged: StagedKeys,
                   start: DetachedKeys,
                   before: seq<seq<Row>>)
    returns (accepted: bool, detached: DetachedKeys, current: seq<seq<Row>>)
    requires TablesFit(tables) && t < |tables| && tables[t].name == request.table && KeysDistinct(tables[t])
    requires NoRepeats(request.keys) && MayDetach(tables[t], request.column, pinned)
    requires CurrentHolds(tables, before, start)
    ensures accepted <==> forall k :: k in request.keys ==> KeyMayDetach(staged, start, request.table, request.column, k)
    ensures accepted ==> detached == start + DetachKeys(request.table, request.column, request.keys)
    ensures accepted ==> CurrentHolds(tables, current, detached)
  {
    hide KeyOf, RowsNulled, KeysDistinct, OffKey, CurrentHolds, MayDetach, TableFits;
    var column := request.column;
    assert column < |tables[t].nullable| && column !in tables[t].primaryKey by {
      ColumnMayDetach(tables[t], column, pinned);
    }
    accepted, detached, current := true, start, before;
    for j := 0 to |request.keys|
      invariant accepted && detached == start + DetachKeys(request.table, request.column, request.keys[..j])
      invariant forall a :: 0 <= a < j ==> KeyMayDetach(staged, start, request.table, request.column, request.keys[a])
      invariant CurrentHolds(tables, current, detached)
    {
      var k := request.keys[j];
      assert k !in request.keys[..j];
      if (request.table, request.column, k) in detached || (request.table, k) in staged {
        assert k in request.keys;
        return false, {}, [];
      }
      CurrentAt(tables, current, detached, t);
      var changed := NullCell(tables[t], current[t], k, column, detached);
      CurrentHoldsMore(tables, current, detached, t, column, k, changed);
      current := current[t := changed];
      detached := detached + {(request.table, request.column, k)};
      assert request.keys[..j + 1] == request.keys[..j] + [k];
    }
    assert request.keys[..|request.keys|] == request.keys;
  }

  function CellsOf(rows: seq<Row>, column: nat): (values: seq<Value>)
    ensures |values| == |rows| && forall i :: 0 <= i < |rows| ==> values[i] == Cell(rows[i], column)
  {
    seq(|rows|, i requires 0 <= i < |rows| => Cell(rows[i], column))
  }

  method DetachRows(tables: seq<Table>, indexes: seq<map<Key, Row>>, pinned: set<(string, nat)>, staged: StagedKeys,
                    detach: seq<Detach>)
    returns (accepted: bool, ghost detached: DetachedKeys, current: seq<seq<Row>>, batches: seq<DetachedBatch>)
    requires |indexes| == |tables| && forall t :: 0 <= t < |tables| ==> indexes[t] == Index(tables[t])
    requires SourceAccepted(tables)
    ensures accepted <==> forall i :: 0 <= i < |detach| ==> DetachFits(tables, pinned, staged, detach, i)
    ensures accepted ==> detached == DetachedUpTo(detach, |detach|) && CurrentHolds(tables, current, detached)
    ensures accepted ==> batches == DetachedBatches(tables, detach, |detach|)
  {
    hide Index, NoRepeats, DetachKeys, KeysDistinct, CurrentHolds, MayDetach, KeyMayDetach, TablesFit, LookUp;
    accepted, detached, batches := true, {}, [];
    current := seq(|tables|, t requires 0 <= t < |tables| => tables[t].rows);
    NothingNulled(tables, current);
    var gone: DetachedKeys := {};
    for i := 0 to |detach|
      invariant accepted && forall j :: 0 <= j < i ==> DetachFits(tables, pinned, staged, detach, j)
      invariant gone == DetachedUpTo(detach, i) && CurrentHolds(tables, current, gone)
      invariant batches == DetachedBatches(tables, detach, i)
    {
      var request := detach[i];
      var rows := SelectRows(tables, indexes, request.table, request.keys);
      if rows.None? {
        assert !DetachFits(tables, pinned, staged, detach, i);
        return false, {}, [], [];
      }
      var t := Position(tables, request.table, |tables|).value;
      if !MayDetach(tables[t], request.column, pinned) {
        assert !DetachFits(tables, pinned, staged, detach, i);
        return false, {}, [], [];
      }
      accepted, gone, current := DetachOne(tables, t, request, pinned, staged, gone, current);
      if !accepted {
        assert !DetachFits(tables, pinned, staged, detach, i);
        return false, {}, [], [];
      }
      assert CellsOf(rows.value, request.column) == ValuesFor(tables, request.table, request.keys, request.column);
      batches := batches + [DetachedBatch(request.table, request.column, request.keys, CellsOf(rows.value, request.column))];
    }
    detached := gone;
  }

  lemma NothingNulled(tables: seq<Table>, current: seq<seq<Row>>)
    requires |current| == |tables| && forall t :: 0 <= t < |tables| ==> current[t] == tables[t].rows
    ensures CurrentHolds(tables, current, {})
  {
    forall t, i | 0 <= t < |tables| && 0 <= i < |tables[t].rows| ensures tables[t].rows[i] == Nulled(tables[t], tables[t].rows[i], {}) {
    }
  }

  /** Keeps the rows that were not staged. */
  method FilterRows(table: Table, rows: seq<Row>, staged: StagedKeys,
                    ghost detached: DetachedKeys) returns (kept: seq<Row>)
    requires OffKey(table, detached) && RowsNulled(table, rows, detached)
    ensures kept == RemainingUpTo(table, staged, detached, |table.rows|)
  {
    hide KeyOf, Nulled;
    kept := [];
    for i := 0 to |rows|
      invariant kept == RemainingUpTo(table, staged, detached, i)
    {
      NulledKeepsKey(table, table.rows[i], detached);
      if (table.name, KeyOf(table, rows[i])) !in staged {
        kept := kept + [rows[i]];
      }
    }
  }

  // ---------- surviving references ----------

  function RemovedValues(table: Table, columns: seq<nat>, staged: StagedKeys): set<seq<Value>> {
    set q | q in table.rows && (table.name, KeyOf(table, q)) in staged :: Project(q, columns)
  }

  lemma DanglesMeansRemoved(tables: seq<Table>, staged: StagedKeys, key: ForeignKey, row: Row, t: nat)
    requires NamesDistinct(tables) && t < |tables| && tables[t].name == key.referencedTable
    ensures Dangles(tables, staged, key, row) <==>
      !HasNull(Project(row, key.columns)) && Project(row, key.columns) in RemovedValues(tables[t], key.referencedColumns, staged)
  {
    hide KeyOf, Project;
  }

  ghost predicate KeySurvives(tables: seq<Table>, staged: StagedKeys, published: Table, key: ForeignKey) {
    forall row :: row in published.rows ==> !Dangles(tables, staged, key, row)
  }

  /** No row left behind refers to a row that was set aside. */
  method CheckKey(tables: seq<Table>, staged: StagedKeys, published: Table, key: ForeignKey) returns (survives: bool)
    requires NamesDistinct(tables)
    ensures survives <==> KeySurvives(tables, staged, published, key)
  {
    hide KeyOf, Dangles, RemovedValues;
    var t := Position(tables, key.referencedTable, |tables|);
    if t.None? {
      forall row | row in published.rows ensures !Dangles(tables, staged, key, row) {
        NoTableNoDangle(tables, staged, key, row);
      }
      return true;
    }
    var removed := RemovedValues(tables[t.value], key.referencedColumns, staged);
    for i := 0 to |published.rows|
      invariant forall j :: 0 <= j < i ==> !Dangles(tables, staged, key, published.rows[j])
    {
      var values := Project(published.rows[i], key.columns);
      DanglesMeansRemoved(tables, staged, key, published.rows[i], t.value);
      if !HasNull(values) && values in removed {
        return false;
      }
    }
    return true;
  }

  lemma NoTableNoDangle(tables: seq<Table>, staged: StagedKeys, key: ForeignKey, row: Row)
    requires forall t :: 0 <= t < |tables| ==> tables[t].name != key.referencedTable
    ensures !Dangles(tables, staged, key, row)
  {
  }

  lemma SurvivesByKey(tables: seq<Table>, staged: StagedKeys, published: Table)
    ensures TableSurvives(tables, staged, published) <==> forall key :: key in published.foreignKeys ==> KeySurvives(tables, staged, published, key)
  {
    hide Dangles;
  }

  method CheckTable(tables: seq<Table>, staged: StagedKeys, published: Table) returns (survives: bool)
    requires NamesDistinct(tables)
    ensures survives <==> TableSurvives(tables, staged, published)
  {
    hide KeySurvives, TableSurvives, NamesDistinct;
    SurvivesByKey(tables, staged, published);
    for i := 0 to |published.foreignKeys|
      invariant forall j :: 0 <= j < i ==> KeySurvives(tables, staged, published, published.foreignKeys[j])
    {
      var kept := CheckKey(tables, staged, published, published.foreignKeys[i]);
      if !kept {
        assert published.foreignKeys[i] in published.foreignKeys;
        return false;
      }
    }
    return true;
  }

  /** The whole preparation: accepted exactly when the requests fit and nothing left behind dangles. */
  method Prepare(tables: seq<Table>, pinned: set<(string, nat)>, stage: seq<Stage>, detach: seq<Detach>)
    returns (result: Option<Publication>)
    requires forall t :: 0 <= t < |tables| ==> TableFits(tables[t])
    ensures result.Some? <==> SourceAccepted(tables) && Acceptable(tables, pinned, stage, detach)
    ensures result.Some? ==> result.value == Prepared(tables, stage, detach)
  {
    hide KeysDistinct, StageFits, DetachFits, TableSurvives, Index, TableFits, StagedUpTo, DetachedUpTo,
      RemainingUpTo, OffKey, RowsNulled;
    if !NamesDistinct(tables) {
      return None;
    }
    var indexes: seq<map<Key, Row>> := [];
    for t := 0 to |tables|
      invariant |indexes| == t && forall u :: 0 <= u < t ==> KeysDistinct(tables[u]) && indexes[u] == Index(tables[u])
    {
      var index := IndexTable(tables[t]);
      if index.None? {
        return None;
      }
      indexes := indexes + [index.value];
    }
    var accepted, staged, rows := StageRows(tables, indexes, stage);
    if !accepted {
      return None;
    }
    var current, columns;
    ghost var detached;
    accepted, detached, current, columns := DetachRows(tables, indexes, pinned, staged, detach);
    if !accepted {
      return None;
    }
    var published: seq<Table> := [];
    for t := 0 to |tables|
      invariant |published| == t && forall u :: 0 <= u < t ==> published[u] == PublishedTable(tables[u], staged, detached)
    {
      var kept := FilterRows(tables[t], current[t], staged, detached);
      published := published + [tables[t].(rows := kept)];
    }
    for t := 0 to |tables|
      invariant forall u :: 0 <= u < t ==> TableSurvives(tables, staged, published[u])
    {
      var kept := CheckTable(tables, staged, published[t]);
      if !kept {
        return None;
      }
    }
    assert published == PublishedTables(tables, staged, detached);
    return Some(Publication(published, rows, columns));
  }
}
