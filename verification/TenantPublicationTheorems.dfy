/** Nothing is lost by preparing a publication, and when references still resolve afterwards. */
module TenantPublicationTheorems {
  import opened Common
  import opened TenantTables
  import opened TenantPublication

  // ---------- putting things back ----------

  /** The value recorded for a key, the last one if it is repeated. */
  function ValueFor(keys: seq<Key>, values: seq<Value>, k: Key, n: nat): Option<Value>
    requires n <= |keys| && |keys| <= |values|
  {
    if n == 0 then None else if keys[n - 1] == k then Some(values[n - 1]) else ValueFor(keys, values, k, n - 1)
  }

  /** The value recorded for one cell in the first n batches. */
  function RecordedValue(batches: seq<DetachedBatch>, name: string, column: nat, k: Key, n: nat): Option<Value>
    requires n <= |batches|
  {
    if n == 0 then None
    else
      var b := batches[n - 1];
      var found := if b.table == name && b.column == column && |b.keys| <= |b.values| then ValueFor(b.keys, b.values, k, |b.keys|) else None;
      if found.Some? then found else RecordedValue(batches, name, column, k, n - 1)
  }

  function RestoredRow(p: Publication, table: Table, row: Row): (r: Row)
    ensures |r| == |row|
  {
    seq(|row|, c requires 0 <= c < |row| =>
      var found := RecordedValue(p.detached, table.name, c, KeyOf(table, row), |p.detached|);
      if found.Some? then found.value else row[c])
  }

  /** The rows of one batch under their keys. */
  function BatchRows(b: StagedBatch, n: nat): map<Key, Row>
    requires n <= |b.keys|
  {
    if n == 0 || n > |b.rows| then map[] else BatchRows(b, n - 1)[b.keys[n - 1] := b.rows[n - 1]]
  }

  function StagedRows(batches: seq<StagedBatch>, name: string, n: nat): map<Key, Row>
    requires n <= |batches|
  {
    if n == 0 then map[]
    else if batches[n - 1].table == name then StagedRows(batches, name, n - 1) + BatchRows(batches[n - 1], |batches[n - 1].keys|)
    else StagedRows(batches, name, n - 1)
  }

  function RestoredRows(p: Publication, table: Table, n: nat): map<Key, Row>
    requires n <= |table.rows|
  {
    if n == 0 then map[]
    else RestoredRows(p, table, n - 1)[KeyOf(table, table.rows[n - 1]) := RestoredRow(p, table, table.rows[n - 1])]
  }

  /** A table rebuilt from the two artifacts alone. */
  function Rebuilt(p: Publication, t: nat): map<Key, Row>
    requires t < |p.tables|
  {
    var table := p.tables[t];
    RestoredRows(p, table, |table.rows|) + StagedRows(p.staged, table.name, |p.staged|)
  }

  /** The publication of accepted requests. */
  ghost predicate Accepted(p: Publication, tables: seq<Table>, pinned: set<(string, nat)>, stage: seq<Stage>,
                           detach: seq<Detach>) {
    && SourceAccepted(tables) && Acceptable(tables, pinned, stage, detach)
    && p == Prepared(tables, stage, detach)
  }

  // ---------- cells ----------

  lemma {:induction false} ValueForFinds(tables: seq<Table>, name: string, keys: seq<Key>, column: nat, k: Key, n: nat)
    requires n <= |keys|
    ensures ValueFor(keys, ValuesFor(tables, name, keys, column), k, n) ==
      if k in keys[..n] then Some(Cell(LookUp(tables, name, k), column)) else None
  {
    hide LookUp;
    if n > 0 {
      ValueForFinds(tables, name, keys, column, k, n - 1);
      assert keys[..n] == keys[..n - 1] + [keys[n - 1]];
    }
  }

  /** A cell has a recorded value exactly when it was detached, and the value is the original one. */
  lemma {:induction false} RecordedIsOriginal(tables: seq<Table>, detach: seq<Detach>, name: string, column: nat,
                                              k: Key, n: nat)
    requires n <= |detach|
    ensures RecordedValue(DetachedBatches(tables, detach, |detach|), name, column, k, n) ==
      if (name, column, k) in DetachedUpTo(detach, n) then Some(Cell(LookUp(tables, name, k), column)) else None
  {
    hide LookUp;
    if n > 0 {
      var request := detach[n - 1];
      RecordedIsOriginal(tables, detach, name, column, k, n - 1);
      ValueForFinds(tables, request.table, request.keys, request.column, k, |request.keys|);
      assert request.keys[..|request.keys|] == request.keys;
    }
  }

  lemma DetachedOffKey(tables: seq<Table>, pinned: set<(string, nat)>, stage: seq<Stage>, detach: seq<Detach>, t: nat)
    requires SourceAccepted(tables) && Requested(tables, pinned, stage, detach) && t < |tables|
    ensures OffKey(tables[t], DetachedUpTo(detach, |detach|))
  {
    hide Selects, StageFits, KeyMayDetach, KeysDistinct, TableFits;
    forall c, k | (tables[t].name, c, k) in DetachedUpTo(detach, |detach|) ensures c !in tables[t].primaryKey {
      var i := DetachedByRequest(detach, |detach|, tables[t].name, c, k);
      assert DetachFits(tables, pinned, StagedUpTo(stage, |stage|), detach, i);
      PositionOf(tables, t);
    }
  }

  lemma LookUpFinds(tables: seq<Table>, t: nat, row: Row)
    requires SourceAccepted(tables) && t < |tables| && row in tables[t].rows
    ensures LookUp(tables, tables[t].name, KeyOf(tables[t], row)) == row
  {
    hide KeyOf, KeysDistinct, TableFits;
    PositionOf(tables, t);
    IndexFinds(tables[t], row);
  }

  /** Restoring a published row gives the row it was made from. */
  lemma RestoresRow(p: Publication, tables: seq<Table>, pinned: set<(string, nat)>, stage: seq<Stage>,
                    detach: seq<Detach>, t: nat, row: Row)
    requires Accepted(p, tables, pinned, stage, detach) && t < |tables| && row in tables[t].rows
    ensures var published := Nulled(tables[t], row, DetachedUpTo(detach, |detach|));
      KeyOf(p.tables[t], published) == KeyOf(tables[t], row) && RestoredRow(p, p.tables[t], published) == row
  {
    hide KeyOf, Acceptable, LookUp, SourceAccepted, DetachedUpTo, StagedUpTo, RecordedValue, RemainingUpTo,
      StagedBatches, DetachedBatches, Nulled;
    assert Requested(tables, pinned, stage, detach) by { RequestedIfAcceptable(tables, pinned, stage, detach); }
    DetachedOffKey(tables, pinned, stage, detach, t);
    var gone := DetachedUpTo(detach, |detach|);
    var published, k := Nulled(tables[t], row, gone), KeyOf(tables[t], row);
    NulledKeepsKey(tables[t], row, gone);
    SameKeyOf(tables[t], p.tables[t], published);
    LookUpFinds(tables, t, row);
    forall c: nat | c < |row| ensures RestoredRow(p, p.tables[t], published)[c] == row[c] {
      RecordedIsOriginal(tables, detach, tables[t].name, c, k, |detach|);
    }
  }

  lemma RequestedIfAcceptable(tables: seq<Table>, pinned: set<(string, nat)>, stage: seq<Stage>, detach: seq<Detach>)
    requires Acceptable(tables, pinned, stage, detach)
    ensures Requested(tables, pinned, stage, detach)
  {
  }

  lemma SameKeyOf(a: Table, b: Table, row: Row)
    requires a.primaryKey == b.primaryKey
    ensures KeyOf(a, row) == KeyOf(b, row)
  {
  }

  // ---------- rows ----------

  /** The published rows, restored, are the original rows that were not staged. */
  lemma {:induction false} RestoredAre(p: Publication, tables: seq<Table>, pinned: set<(string, nat)>,
                                       stage: seq<Stage>, detach: seq<Detach>,
                                       t: nat, n: nat, m: nat)
    requires Accepted(p, tables, pinned, stage, detach) && t < |tables| == |p.tables|
    requires n <= |tables[t].rows| && m <= |p.tables[t].rows|
    requires p.tables[t].rows[..m] == RemainingUpTo(tables[t], StagedUpTo(stage, |stage|), DetachedUpTo(detach, |detach|), n)
    ensures RestoredRows(p, p.tables[t], m) == Unstaged(tables[t], StagedUpTo(stage, |stage|), n)
  {
    hide KeyOf, Accepted, RestoredRow, Nulled, DetachedUpTo, StagedUpTo;
    var staged, gone := StagedUpTo(stage, |stage|), DetachedUpTo(detach, |detach|);
    if n == 0 {
    } else {
      var row := tables[t].rows[n - 1];
      if (tables[t].name, KeyOf(tables[t], row)) in staged {
        RestoredAre(p, tables, pinned, stage, detach, t, n - 1, m);
      } else {
        var before := RemainingUpTo(tables[t], staged, gone, n - 1);
        assert p.tables[t].rows[..m] == before + [Nulled(tables[t], row, gone)];
        assert m == |before| + 1;
        assert p.tables[t].rows[..m - 1] == before;
        assert p.tables[t].rows[m - 1] == Nulled(tables[t], row, gone);
        RestoredAre(p, tables, pinned, stage, detach, t, n - 1, m - 1);
        RestoresRow(p, tables, pinned, stage, detach, t, row);
      }
    }
  }

  /** The first n original rows that were not staged, by key. */
  function Unstaged(table: Table, staged: StagedKeys, n: nat): map<Key, Row>
    requires n <= |table.rows|
  {
    if n == 0 then map[]
    else
      var row := table.rows[n - 1];
      var before := Unstaged(table, staged, n - 1);
      if (table.name, KeyOf(table, row)) in staged then before else before[KeyOf(table, row) := row]
  }

  lemma {:induction false} UnstagedIs(table: Table, staged: StagedKeys, n: nat)
    requires n <= |table.rows|
    ensures forall k :: k in Unstaged(table, staged, n) <==> k in IndexUpTo(table, table.rows, n) && (table.name, k) !in staged
    ensures forall k :: k in Unstaged(table, staged, n) ==> Unstaged(table, staged, n)[k] == IndexUpTo(table, table.rows, n)[k]
  {
    hide KeyOf;
    if n > 0 {
      UnstagedIs(table, staged, n - 1);
    }
  }

  lemma {:induction false} BatchRowsAre(tables: seq<Table>, request: Stage, n: nat)
    requires n <= |request.keys|
    ensures var rows := BatchRows(StagedBatch(request.table, request.keys, RowsFor(tables, request.table, request.keys)), n);
      && (forall k :: k in rows <==> k in request.keys[..n])
      && forall k :: k in rows ==> rows[k] == LookUp(tables, request.table, k)
  {
    hide LookUp, RowsFor;
    if n > 0 {
      BatchRowsAre(tables, request, n - 1);
      assert request.keys[..n] == request.keys[..n - 1] + [request.keys[n - 1]];
    }
  }

  /** The staged rows of a table are the original rows under the staged keys. */
  lemma {:induction false} StagedRowsAre(tables: seq<Table>, stage: seq<Stage>, name: string, n: nat)
    requires n <= |stage|
    ensures var rows := StagedRows(StagedBatches(tables, stage, |stage|), name, n);
      && (forall k :: k in rows <==> (name, k) in StagedUpTo(stage, n))
      && forall k :: k in rows ==> rows[k] == LookUp(tables, name, k)
  {
    hide LookUp, RowsFor;
    if n > 0 {
      var request := stage[n - 1];
      StagedRowsAre(tables, stage, name, n - 1);
      BatchRowsAre(tables, request, |request.keys|);
      assert request.keys[..|request.keys|] == request.keys;
    }
  }

  lemma StagedIsStored(tables: seq<Table>, stage: seq<Stage>, t: nat, k: Key)
    requires NamesDistinct(tables) && t < |tables| && (tables[t].name, k) in StagedUpTo(stage, |stage|)
    requires forall i :: 0 <= i < |stage| ==> StageFits(tables, stage, i)
    ensures k in Index(tables[t]) && LookUp(tables, tables[t].name, k) == Index(tables[t])[k]
  {
    hide Index, NoRepeats;
    var i := StagedByRequest(stage, |stage|, tables[t].name, k);
    assert StageFits(tables, stage, i);
    PositionOf(tables, t);
  }

  /** Publication and staging split the original rows: no key is in both, and together, with the
      detached values put back, they are the original table. */
  lemma NothingIsLost(p: Publication, tables: seq<Table>, pinned: set<(string, nat)>, stage: seq<Stage>,
                      detach: seq<Detach>, t: nat)
    requires Accepted(p, tables, pinned, stage, detach) && t < |tables|
    ensures |p.tables| == |tables|
    ensures RestoredRows(p, p.tables[t], |p.tables[t].rows|).Keys !! StagedRows(p.staged, p.tables[t].name, |p.staged|).Keys
    ensures Rebuilt(p, t) == Index(tables[t])
  {
    hide KeyOf, LookUp, StageFits, DetachFits, RestoredRows, StagedRows, KeysDistinct, TableSurvives, TablesFit;
    var staged := StagedUpTo(stage, |stage|);
    var n := |p.tables[t].rows|;
    assert p.tables[t].rows[..n] == p.tables[t].rows;
    RestoredAre(p, tables, pinned, stage, detach, t, |tables[t].rows|, n);
    UnstagedIs(tables[t], staged, |tables[t].rows|);
    StagedRowsAre(tables, stage, tables[t].name, |stage|);
    assert NamesDistinct(tables) by { NamesIfFit(tables); }
    forall k | (tables[t].name, k) in staged
      ensures k in Index(tables[t]) && LookUp(tables, tables[t].name, k) == Index(tables[t])[k]
    {
      StagedIsStored(tables, stage, t, k);
    }
  }

  lemma NamesIfFit(tables: seq<Table>)
    requires TablesFit(tables)
    ensures NamesDistinct(tables)
  {
  }
}
