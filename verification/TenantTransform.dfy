/** Rewriting the snapshot's rows in place before the import: fixed columns, identity links applied to
    user ids and to every reference to a user, then the configured field transforms. */
module TenantTransform {
  import opened Common
  import opened TenantTables
  import opened TenantImport
  import opened TenantClosure

  /** Source user id to target user id. */
  type Links = map<string, string>

  /** What a replacement makes of a value in a row, given the row as it was; None if it refuses. Value maps,
      re-encryption, disabled tokens and rewritten JSON paths are of this kind. */
  type Replacement = (string, Row) -> Option<string>

  datatype Transform = SetNull | Replace(replacement: Replacement)

  /** Fixed columns are overwritten whatever they hold. Field transforms go by table and column; pinned
      columns may not have one. The refusals of single tables are given as conditions on a cell, once it
      is relinked, and on a row before and after. */
  datatype Options = Options(fixed: map<(string, nat), string>, links: Links, transforms: map<(string, nat), Transform>,
                             pinned: set<(string, nat)>, refusesCell: (string, nat, Row, Value) -> bool,
                             refusesRow: (string, Row, Row) -> bool)

  // ---------- one cell ----------

  function Relink(links: Links, v: Value): Value {
    if v.Some? && v.value in links then Some(links[v.value]) else v
  }

  function RelinkTimes(links: Links, v: Value, n: nat): Value {
    if n == 0 then v else Relink(links, RelinkTimes(links, v, n - 1))
  }

  predicate IsUserKey(key: ForeignKey, column: nat) {
    key.referencedTable == "User" && column in key.columns
  }

  /** How many of the first n keys refer to users through a column. */
  function UserKeys(keys: seq<ForeignKey>, column: nat, n: nat): nat
    requires n <= |keys|
  {
    if n == 0 then 0 else UserKeys(keys, column, n - 1) + if IsUserKey(keys[n - 1], column) then 1 else 0
  }

  /** How often a column's value is relinked. */
  function Times(table: Table, column: nat): nat {
    UserKeys(table.foreignKeys, column, |table.foreignKeys|) + if table.name == "User" && column == USER_ID then 1 else 0
  }

  function Fixed(o: Options, table: Table, column: nat, v: Value): Value {
    if (table.name, column) in o.fixed then Some(o.fixed[(table.name, column)]) else v
  }

  function Transformed(o: Options, table: Table, original: Row, column: nat, v: Value): Option<Value>
    requires column < |table.nullable|
  {
    if o.refusesCell(table.name, column, original, v) then None
    else if (table.name, column) !in o.transforms || v.None? then Some(v)
    else if column in table.primaryKey || (table.name, column) in o.pinned then None
    else
      match o.transforms[(table.name, column)]
      case SetNull => if table.nullable[column] then Some(None) else None
      case Replace(replacement) =>
        var replaced := replacement(v.value, original);
        if replaced.Some? then Some(Some(replaced.value)) else None
  }

  /** A cell once fixed and relinked. */
  function Linked(o: Options, table: Table, column: nat, v: Value): Value {
    RelinkTimes(o.links, Fixed(o, table, column, v), Times(table, column))
  }

  function CellAfter(o: Options, table: Table, original: Row, column: nat): Option<Value>
    requires column < |table.nullable| && column < |original|
  {
    Transformed(o, table, original, column, Linked(o, table, column, original[column]))
  }

  /** A user is referred to by its id alone. */
  predicate UserKeyFits(key: ForeignKey) {
    |key.columns| == 1 && key.referencedColumns == [USER_ID]
  }

  predicate UserKeysFit(table: Table) {
    forall key :: key in table.foreignKeys && key.referencedTable == "User" ==> UserKeyFits(key)
  }

  // ---------- one row ----------

  predicate CellsFit(o: Options, table: Table, row: Row) {
    && |row| == |table.nullable| && UserKeysFit(table)
    && forall c: nat :: c < |row| ==> CellAfter(o, table, row, c).Some?
  }

  function RowAfter(o: Options, table: Table, row: Row): (after: Row)
    requires CellsFit(o, table, row)
    ensures |after| == |row| && forall c: nat :: c < |row| ==> CellAfter(o, table, row, c) == Some(after[c])
  {
    seq(|row|, c requires 0 <= c < |row| => CellAfter(o, table, row, c).value)
  }

  predicate RowFits(o: Options, table: Table, row: Row) {
    CellsFit(o, table, row) && !o.refusesRow(table.name, row, RowAfter(o, table, row))
  }

  /** The keys to users that a column takes part in, one by one. */
  method RelinkCell(o: Options, table: Table, row: array<Value>, c: nat) returns (ok: bool)
    requires TableFits(table) && c < row.Length
    modifies row
    ensures ok <==> forall key :: key in table.foreignKeys && IsUserKey(key, c) ==> UserKeyFits(key)
    ensures ok ==> row[c] == RelinkTimes(o.links, old(row[c]), Times(table, c))
    ensures forall j :: 0 <= j < row.Length && j != c ==> row[j] == old(row[j])
  {
    hide Relink, IsUserKey;
    ghost var first := if table.name == "User" && c == USER_ID then 1 else 0;
    if table.name == "User" && c == USER_ID {
      row[c] := Relink(o.links, row[c]);
    }
    var keys := table.foreignKeys;
    for k := 0 to |keys|
      invariant forall j :: 0 <= j < k && IsUserKey(keys[j], c) ==> UserKeyFits(keys[j])
      invariant row[c] == RelinkTimes(o.links, old(row[c]), UserKeys(keys, c, k) + first)
      invariant forall j :: 0 <= j < row.Length && j != c ==> row[j] == old(row[j])
    {
      if IsUserKey(keys[k], c) {
        assert KeyFits(table, keys[k]);
        if |keys[k].columns| != 1 || keys[k].referencedColumns[0] != USER_ID {
          assert keys[k] in table.foreignKeys && !UserKeyFits(keys[k]);
          return false;
        }
        assert keys[k].referencedColumns == [keys[k].referencedColumns[0]];
        row[c] := Relink(o.links, row[c]);
      }
    }
    return true;
  }

  /** Rewrites one row in place, column by column. */
  method TransformRow(o: Options, table: Table, row: array<Value>) returns (ok: bool)
    requires TableFits(table) && row.Length == |table.nullable|
    modifies row
    ensures ok <==> RowFits(o, table, old(row[..]))
    ensures ok ==> row[..] == RowAfter(o, table, old(row[..]))
  {
    hide Transformed, RelinkTimes, Times, TableFits, KeyFits, Fixed;
    var original := row[..];
    for c := 0 to row.Length
      invariant forall j: nat :: c <= j < row.Length ==> row[j] == original[j]
      invariant forall j: nat :: j < c ==> CellAfter(o, table, original, j) == Some(row[j])
      invariant forall key, j: nat :: key in table.foreignKeys && j < c && IsUserKey(key, j) ==> UserKeyFits(key)
    {
      row[c] := Fixed(o, table, c, row[c]);
      ok := RelinkCell(o, table, row, c);
      if !ok {
        assert !UserKeysFit(table);
        return;
      }
      assert row[c] == Linked(o, table, c, original[c]);
      var value := Transformed(o, table, original, c, row[c]);
      if value.None? {
        assert CellAfter(o, table, original, c).None?;
        return false;
      }
      row[c] := value.value;
    }
    assert UserKeysFit(table) by { AllKeysSeen(table, row.Length); }
    assert row[..] == RowAfter(o, table, original);
    ok := !o.refusesRow(table.name, original, row[..]);
  }

  lemma AllKeysSeen(table: Table, n: nat)
    requires TableFits(table) && n == |table.nullable|
    requires forall key, j: nat :: key in table.foreignKeys && j < n && IsUserKey(key, j) ==> UserKeyFits(key)
    ensures UserKeysFit(table)
  {
    forall key | key in table.foreignKeys && key.referencedTable == "User" ensures UserKeyFits(key) {
      assert KeyFits(table, key);
      assert key.columns[0] in key.columns;
      assert IsUserKey(key, key.columns[0]);
    }
  }

  // ---------- all rows ----------

  predicate TableTransforms(o: Options, table: Table) {
    forall i :: 0 <= i < |table.rows| ==> RowFits(o, table, table.rows[i])
  }

  function RowsAfter(o: Options, table: Table): (rows: seq<Row>)
    requires TableTransforms(o, table)
    ensures |rows| == |table.rows| && forall i :: 0 <= i < |rows| ==> rows[i] == RowAfter(o, table, table.rows[i])
  {
    seq(|table.rows|, i requires 0 <= i < |table.rows| => RowAfter(o, table, table.rows[i]))
  }

  method TransformTable(o: Options, table: Table) returns (rows: Option<seq<Row>>)
    requires TableFits(table)
    ensures rows.Some? <==> TableTransforms(o, table)
    ensures rows.Some? ==> rows.value == RowsAfter(o, table)
  {
    hide CellAfter, UserKeysFit;
    var done: seq<Row> := [];
    for i := 0 to |table.rows|
      invariant |done| == i
      invariant forall j :: 0 <= j < i ==> RowFits(o, table, table.rows[j]) && done[j] == RowAfter(o, table, table.rows[j])
    {
      var source := table.rows[i];
      assert source in table.rows;
      var row := new Value[|source|](c requires 0 <= c < |source| => source[c]);
      assert row[..] == source;
      var ok := TransformRow(o, table, row);
      if !ok {
        return None;
      }
      done := done + [row[..]];
    }
    return Some(done);
  }

  ghost predicate TablesTransform(o: Options, tables: seq<Table>) {
    forall t :: 0 <= t < |tables| ==> TableTransforms(o, tables[t])
  }

  ghost function TablesAfter(o: Options, tables: seq<Table>): (after: seq<Table>)
    requires TablesTransform(o, tables)
    ensures |after| == |tables| && forall t :: 0 <= t < |tables| ==> after[t] == tables[t].(rows := RowsAfter(o, tables[t]))
  {
    seq(|tables|, t requires 0 <= t < |tables| => tables[t].(rows := RowsAfter(o, tables[t])))
  }

  /** Rewrites the whole snapshot, or fails if any cell may not be rewritten as asked. */
  method TransformTables(o: Options, tables: seq<Table>) returns (after: Option<seq<Table>>)
    requires TablesFit(tables)
    ensures after.Some? <==> TablesTransform(o, tables)
    ensures after.Some? ==> after.value == TablesAfter(o, tables)
  {
    hide TableTransforms, TableFits, NamesDistinct;
    var done: seq<Table> := [];
    for t := 0 to |tables|
      invariant |done| == t
      invariant forall u :: 0 <= u < t ==> TableTransforms(o, tables[u]) && done[u] == tables[u].(rows := RowsAfter(o, tables[u]))
    {
      var rows := TransformTable(o, tables[t]);
      if rows.None? {
        return None;
      }
      done := done + [tables[t].(rows := rows.value)];
    }
    return Some(done);
  }

  // ---------- references follow their users ----------

  /** No link leads to an id that is itself linked elsewhere. */
  ghost predicate NoChains(links: Links) {
    forall a :: a in links && links[a] in links ==> links[links[a]] == links[a]
  }

  lemma {:induction false} RelinkedOnce(links: Links, v: Value, n: nat)
    requires n >= 1 && NoChains(links)
    ensures RelinkTimes(links, v, n) == Relink(links, v)
  {
    if n > 1 {
      RelinkedOnce(links, v, n - 1);
    }
  }

  ghost predicate RepeatingIsHarmless(links: Links) {
    forall v, n: nat :: n >= 1 ==> RelinkTimes(links, v, n) == Relink(links, v)
  }

  lemma Twice(links: Links, v: Value)
    ensures RelinkTimes(links, v, 2) == Relink(links, Relink(links, v))
  {
    assert RelinkTimes(links, v, 1) == Relink(links, RelinkTimes(links, v, 0));
  }

  /** Relinking a value again never changes it if and only if no links are chained. */
  lemma RepeatingIsHarmlessExactly(links: Links)
    ensures RepeatingIsHarmless(links) <==> NoChains(links)
  {
    if NoChains(links) {
      forall v, n: nat | n >= 1 ensures RelinkTimes(links, v, n) == Relink(links, v) {
        RelinkedOnce(links, v, n);
      }
    }
    if RepeatingIsHarmless(links) {
      forall a | a in links && links[a] in links ensures links[links[a]] == links[a] {
        Twice(links, Some(a));
        assert RelinkTimes(links, Some(a), 2) == Relink(links, Some(a));
      }
    }
  }

  /** Row i of table t refers, through a key, to row j of table u. */
  ghost predicate RefersAt(tables: seq<Table>, t: nat, i: nat, key: ForeignKey, u: nat, j: nat) {
    && t < |tables| && i < |tables[t].rows| && u < |tables| && j < |tables[u].rows|
    && key in tables[t].foreignKeys && tables[u].name == key.referencedTable
    && !HasNull(Project(tables[t].rows[i], key.columns))
    && Project(tables[u].rows[j], key.referencedColumns) == Project(tables[t].rows[i], key.columns)
  }

  ghost predicate Untouched(o: Options, table: Table, columns: seq<nat>) {
    forall c :: c in columns ==> (table.name, c) !in o.transforms && (table.name, c) !in o.fixed
  }

  /** Relinking the column and relinking the column it refers to give the same value. */
  predicate RelinkedAlike(o: Options, table: Table, referenced: Table, c: nat, d: nat, v: Value) {
    RelinkTimes(o.links, v, Times(table, c)) == RelinkTimes(o.links, v, Times(referenced, d))
  }

  /** What the rewriting does to an untouched cell. */
  lemma CellFollows(o: Options, table: Table, row: Row, c: nat)
    requires CellsFit(o, table, row) && (table.name, c) !in o.transforms && (table.name, c) !in o.fixed
    ensures Cell(RowAfter(o, table, row), c) == RelinkTimes(o.links, Cell(row, c), Times(table, c))
  {
    hide Times, UserKeysFit, RelinkTimes;
    if c < |row| {
      assert CellAfter(o, table, row, c) == Some(RowAfter(o, table, row)[c]);
    } else {
      RelinkedNull(o.links, Times(table, c));
    }
  }

  lemma {:induction false} RelinkedNull(links: Links, n: nat)
    ensures RelinkTimes(links, None, n) == None
  {
    if n > 0 {
      RelinkedNull(links, n - 1);
    }
  }

  lemma {:induction false} RelinkedValue(links: Links, v: Value, n: nat)
    ensures RelinkTimes(links, v, n) == None <==> v == None
  {
    if n > 0 {
      RelinkedValue(links, v, n - 1);
    }
  }

  lemma ColumnsFollow(o: Options, table: Table, row: Row, columns: seq<nat>)
    requires CellsFit(o, table, row) && Untouched(o, table, columns)
    ensures forall k :: 0 <= k < |columns| ==>
      Cell(RowAfter(o, table, row), columns[k]) == RelinkTimes(o.links, Cell(row, columns[k]), Times(table, columns[k]))
    ensures HasNull(Project(RowAfter(o, table, row), columns)) <==> HasNull(Project(row, columns))
  {
    hide Times, CellsFit, RowAfter, RelinkTimes;
    var before, after := Project(row, columns), Project(RowAfter(o, table, row), columns);
    forall k | 0 <= k < |columns|
      ensures Cell(RowAfter(o, table, row), columns[k]) == RelinkTimes(o.links, Cell(row, columns[k]), Times(table, columns[k]))
      ensures after[k] == None <==> before[k] == None
    {
      assert columns[k] in columns;
      CellFollows(o, table, row, columns[k]);
      RelinkedValue(o.links, Cell(row, columns[k]), Times(table, columns[k]));
    }
  }

  /** A reference stays with the row it found exactly when both ends are relinked to the same values. */
  lemma ReferenceStaysExactly(o: Options, tables: seq<Table>, t: nat, i: nat, key: ForeignKey, u: nat, j: nat)
    requires TablesTransform(o, tables) && RefersAt(tables, t, i, key, u, j) && |key.columns| == |key.referencedColumns|
    requires Untouched(o, tables[t], key.columns) && Untouched(o, tables[u], key.referencedColumns)
    ensures RefersAt(TablesAfter(o, tables), t, i, key, u, j) <==>
      forall k :: 0 <= k < |key.columns| ==>
        RelinkedAlike(o, tables[t], tables[u], key.columns[k], key.referencedColumns[k], Cell(tables[t].rows[i], key.columns[k]))
  {
    hide Times, CellsFit, RowAfter, RelinkTimes, Untouched, HasNull;
    var row, q := tables[t].rows[i], tables[u].rows[j];
    assert RowFits(o, tables[t], row) && RowFits(o, tables[u], q) by {
      assert TableTransforms(o, tables[t]) && TableTransforms(o, tables[u]);
    }
    ColumnsFollow(o, tables[t], row, key.columns);
    ColumnsFollow(o, tables[u], q, key.referencedColumns);
    var values, other := Project(row, key.columns), Project(q, key.referencedColumns);
    var now, then_ := Project(RowAfter(o, tables[t], row), key.columns), Project(RowAfter(o, tables[u], q), key.referencedColumns);
    forall k | 0 <= k < |key.columns|
      ensures now[k] == then_[k] <==> RelinkedAlike(o, tables[t], tables[u], key.columns[k], key.referencedColumns[k], values[k])
    {
      assert values[k] == other[k];
    }
    var after := TablesAfter(o, tables);
    assert after[t].rows[i] == RowAfter(o, tables[t], row) && after[u].rows[j] == RowAfter(o, tables[u], q);
    if now == then_ {
      forall k | 0 <= k < |key.columns| ensures now[k] == then_[k] {
      }
    }
  }

  /** No column is relinked more than once, or relinking again does no harm. */
  ghost predicate LinkedOnce(o: Options, tables: seq<Table>) {
    NoChains(o.links) || forall t, c: nat :: 0 <= t < |tables| ==> Times(tables[t], c) <= 1
  }

  /** The two ends of a key are relinked both or neither, and nothing else touches them. */
  ghost predicate KeyEndsAgree(o: Options, table: Table, referenced: Table, key: ForeignKey) {
    && |key.columns| == |key.referencedColumns|
    && Untouched(o, table, key.columns) && Untouched(o, referenced, key.referencedColumns)
    && forall k :: 0 <= k < |key.columns| ==> (Times(table, key.columns[k]) >= 1 <==> Times(referenced, key.referencedColumns[k]) >= 1)
  }

  ghost predicate EndsAgree(o: Options, tables: seq<Table>) {
    && (forall t, key :: 0 <= t < |tables| && key in tables[t].foreignKeys ==> Untouched(o, tables[t], key.columns))
    && forall t, u, key :: 0 <= t < |tables| && 0 <= u < |tables| && key in tables[t].foreignKeys && tables[u].name == key.referencedTable ==>
      KeyEndsAgree(o, tables[t], tables[u], key)
  }

  lemma OnceIsAlike(links: Links, v: Value, m: nat, n: nat)
    requires NoChains(links) || (m <= 1 && n <= 1)
    requires m >= 1 <==> n >= 1
    ensures RelinkTimes(links, v, m) == RelinkTimes(links, v, n)
  {
    if m >= 1 && NoChains(links) {
      RelinkedOnce(links, v, m);
      RelinkedOnce(links, v, n);
    }
  }

  /** Linking users keeps every reference with its row: what row i referred to before, it refers to
      afterwards, under the id that row has now. */
  lemma LinkingKeepsReferences(o: Options, tables: seq<Table>, t: nat, i: nat, key: ForeignKey, u: nat, j: nat)
    requires TablesTransform(o, tables) && LinkedOnce(o, tables) && EndsAgree(o, tables)
    requires RefersAt(tables, t, i, key, u, j)
    ensures RefersAt(TablesAfter(o, tables), t, i, key, u, j)
  {
    hide Times, TableTransforms, RelinkTimes, NoChains, Untouched, HasNull;
    assert KeyEndsAgree(o, tables[t], tables[u], key);
    forall k | 0 <= k < |key.columns|
      ensures RelinkedAlike(o, tables[t], tables[u], key.columns[k], key.referencedColumns[k], Cell(tables[t].rows[i], key.columns[k]))
    {
      OnceIsAlike(o.links, Cell(tables[t].rows[i], key.columns[k]), Times(tables[t], key.columns[k]), Times(tables[u], key.referencedColumns[k]));
    }
    ReferenceStaysExactly(o, tables, t, i, key, u, j);
  }

  /** So a closed snapshot stays closed. */
  lemma LinkingKeepsClosure(o: Options, tables: seq<Table>, linked: set<string>)
    requires TablesTransform(o, tables) && LinkedOnce(o, tables) && EndsAgree(o, tables)
    requires Closed(tables, {})
    ensures Closed(TablesAfter(o, tables), linked)
  {
    hide TableTransforms, LinkedOnce, KeyEndsAgree, RowAfter, HasRow;
    var after := TablesAfter(o, tables);
    forall t, row, key | 0 <= t < |after| && row in after[t].rows && key in after[t].foreignKeys
      ensures KeyCloses(after, key, row, linked)
    {
      var i :| 0 <= i < |after[t].rows| && after[t].rows[i] == row;
      ReferenceStillCloses(o, tables, t, i, key);
    }
  }

  lemma ReferenceStillCloses(o: Options, tables: seq<Table>, t: nat, i: nat, key: ForeignKey)
    requires TablesTransform(o, tables) && LinkedOnce(o, tables) && EndsAgree(o, tables) && Closed(tables, {})
    requires t < |tables| && i < |tables[t].rows| && key in tables[t].foreignKeys
    ensures KeyCloses(TablesAfter(o, tables), key, TablesAfter(o, tables)[t].rows[i], {})
  {
    hide LinkedOnce, KeyEndsAgree, Untouched, RowAfter, CellsFit, Project, Closed, HasNull;
    var row := tables[t].rows[i];
    assert KeyCloses(tables, key, row, {}) by { ClosedAt(tables, t, row, key); }
    assert TableTransforms(o, tables[t]);
    var after := TablesAfter(o, tables);
    if HasNull(Project(row, key.columns)) {
      ColumnsFollow(o, tables[t], row, key.columns);
    } else {
      var u, q :| 0 <= u < |tables| && tables[u].name == key.referencedTable && q in tables[u].rows
        && Project(q, key.referencedColumns) == Project(row, key.columns);
      var j :| 0 <= j < |tables[u].rows| && tables[u].rows[j] == q;
      LinkingKeepsReferences(o, tables, t, i, key, u, j);
      assert after[u].rows[j] in after[u].rows;
    }
  }

  lemma ClosedAt(tables: seq<Table>, t: nat, row: Row, key: ForeignKey)
    requires Closed(tables, {}) && t < |tables| && row in tables[t].rows && key in tables[t].foreignKeys
    ensures KeyCloses(tables, key, row, {})
  {
    hide KeyCloses;
    assert TableCloses(tables, tables[t], {}) && RowCloses(tables, tables[t], row, {});
  }

  // ---------- chained links on a column with two keys ----------

  const OWNER := ForeignKey([1], "User", [USER_ID])

  /** Users a and b, and a note of user a. Its owner column has two keys to User. */
  const OWNED: seq<Table> :=
    [Table("User", [false], [0], [], [[Some("a")], [Some("b")]]),
     Table("Note", [false, false], [0], [OWNER, OWNER], [[Some("n"), Some("a")]])]

  /** User a becomes b, and user b becomes c. */
  const CHAINED := Options(map[], map["a" := "b", "b" := "c"], map[], {}, (t, c, r, v) => false, (t, r, q) => false)

  lemma OwnedFits()
    ensures TablesFit(OWNED) && Closed(OWNED, {})
  {
    var note: Row := [Some("n"), Some("a")];
    assert OWNED[0].name != OWNED[1].name;
    assert KeyFits(OWNED[1], OWNER);
    assert HasRow(OWNED, OWNER, Project(note, [1])) by {
      assert OWNED[0].name == "User" && [Some("a")] in OWNED[0].rows;
      assert Project([Some("a")], [USER_ID]) == Project(note, [1]);
    }
    assert TableCloses(OWNED, OWNED[0], {});
    assert RowCloses(OWNED, OWNED[1], note, {});
  }

  lemma OwnedTimes()
    ensures Times(OWNED[0], 0) == 1 && Times(OWNED[1], 0) == 0 && Times(OWNED[1], 1) == 2
  {
    var keys := OWNED[1].foreignKeys;
    assert UserKeys(keys, 0, 0) == 0 && UserKeys(keys, 1, 0) == 0;
    assert UserKeys(keys, 0, 1) == 0 && UserKeys(keys, 1, 1) == 1;
    assert UserKeys(keys, 0, 2) == 0 && UserKeys(keys, 1, 2) == 2;
  }

  lemma ChainedValues()
    ensures RelinkTimes(CHAINED.links, Some("a"), 1) == Some("b")
    ensures RelinkTimes(CHAINED.links, Some("a"), 2) == Some("c")
    ensures RelinkTimes(CHAINED.links, Some("b"), 1) == Some("c")
    ensures RelinkTimes(CHAINED.links, Some("n"), 0) == Some("n")
  {
    var links := CHAINED.links;
    assert RelinkTimes(links, Some("a"), 0) == Some("a") && RelinkTimes(links, Some("b"), 0) == Some("b");
    assert RelinkTimes(links, Some("a"), 1) == Relink(links, Some("a"));
    assert RelinkTimes(links, Some("b"), 1) == Relink(links, Some("b"));
    assert RelinkTimes(links, Some("a"), 2) == Relink(links, RelinkTimes(links, Some("a"), 1));
  }

  lemma OwnedTransforms()
    ensures TablesTransform(CHAINED, OWNED)
    ensures RowAfter(CHAINED, OWNED[0], [Some("a")]) == [Some("b")]
    ensures RowAfter(CHAINED, OWNED[0], [Some("b")]) == [Some("c")]
    ensures RowAfter(CHAINED, OWNED[1], [Some("n"), Some("a")]) == [Some("n"), Some("c")]
  {
    hide Times, RelinkTimes;
    OwnedTimes();
    ChainedValues();
    assert UserKeyFits(OWNER);
    assert CellAfter(CHAINED, OWNED[0], [Some("a")], 0) == Some(Some("b"));
    assert CellAfter(CHAINED, OWNED[0], [Some("b")], 0) == Some(Some("c"));
    assert CellAfter(CHAINED, OWNED[1], [Some("n"), Some("a")], 0) == Some(Some("n"));
    assert CellAfter(CHAINED, OWNED[1], [Some("n"), Some("a")], 1) == Some(Some("c"));
    assert TableTransforms(CHAINED, OWNED[0]) && TableTransforms(CHAINED, OWNED[1]);
  }

  /** Where a column is relinked twice and links are chained, the rewriting is accepted, the snapshot
      stays closed, and a note ends up with another user. */
  lemma ChainedLinksMoveAReference()
    ensures TablesFit(OWNED) && Closed(OWNED, {}) && TablesTransform(CHAINED, OWNED)
    ensures RefersAt(OWNED, 1, 0, OWNER, 0, 0) && !RefersAt(OWNED, 1, 0, OWNER, 0, 1)
    ensures var after := TablesAfter(CHAINED, OWNED);
      !RefersAt(after, 1, 0, OWNER, 0, 0) && RefersAt(after, 1, 0, OWNER, 0, 1)
  {
    hide TableTransforms, RowAfter;
    OwnedFits();
    OwnedTransforms();
    var after := TablesAfter(CHAINED, OWNED);
    assert TableTransforms(CHAINED, OWNED[0]) && TableTransforms(CHAINED, OWNED[1]);
    assert after[0].rows[0] == [Some("b")] && after[0].rows[1] == [Some("c")] && after[1].rows[0] == [Some("n"), Some("c")];
    assert Project(OWNED[1].rows[0], [1])[0] == Some("a") && Project(OWNED[0].rows[0], [0])[0] == Some("a");
    assert Project(OWNED[0].rows[1], [0])[0] == Some("b");
    assert Project(OWNED[1].rows[0], [1]) == Project(OWNED[0].rows[0], [0]);
    assert Project(after[1].rows[0], [1])[0] == Some("c") && Project(after[0].rows[0], [0])[0] == Some("b");
    assert Project(after[1].rows[0], [1]) == Project(after[0].rows[1], [0]);
  }
}
