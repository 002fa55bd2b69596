/** The whole import transaction, the read-back after it, and what a success or a failure means. */
module TenantImportTransaction {
  import opened Common
  import opened TenantTables
  import opened TenantImport
  import opened TenantImportRun
  import opened TenantClosure

  predicate UserExists(db: Database, user: string) {
    Exists(db, "User", [USER_ID], [Some(user)])
  }

  /** The users the snapshot's linked identities map to. */
  function SetOf(users: seq<string>): set<string> {
    set u | u in users
  }

  datatype Result =
    | Committed(inserted: seq<seq<Row>>)
    | NotClosed
    | LinkedUserMissing(user: string)
    | Refused(why: Outcome)
    | PatchRefused(node: Node)

  /** The state the loops stopped in, for a refusal. */
  ghost predicate StoppedIn(why: Outcome, w: Work, order: seq<Node>, tables: seq<Table>, linked: set<string>,
                            target: Database) {
    && Running(w, order, tables, linked, target)
    && (Explains(why, w, tables, linked) || (why == NoProgress(w) && NothingMoves(w, tables, linked)))
  }

  /** Rows are left, and none can be inserted or skipped. */
  ghost predicate NothingMoves(w: Work, tables: seq<Table>, linked: set<string>) {
    Shaped(w, tables) && Remaining(w.pending, |tables|) > 0 && AllStuck(w, tables, linked, |tables|)
  }

  ghost predicate InsertsRemaining(inserted: seq<seq<Row>>, tables: seq<Table>, linked: set<string>) {
    && |inserted| == |tables|
    && forall t :: 0 <= t < |tables| ==>
         && (forall r :: r in inserted[t] ==> r in tables[t].rows && !IsLinked(tables[t], r, linked))
         && (forall r :: r in tables[t].rows && !IsLinked(tables[t], r, linked) ==> r in inserted[t])
         && (tables[t].name != "User" ==> multiset(inserted[t]) == multiset(tables[t].rows))
  }

  /** The order in which a committed import inserted its rows: each found what it refers to in the old
      database or among the rows before it, and has a value in every column that forbids NULL. */
  ghost predicate InsertedIn(order: seq<Node>, inserted: seq<seq<Row>>, tables: seq<Table>, target: Database) {
    OrderFits(order, tables, target) && OrderCovers(order, inserted) && RequiredFilled(order, tables)
  }

  /** What a commit guarantees. */
  ghost predicate CommitHolds(inserted: seq<seq<Row>>, tables: seq<Table>, linked: set<string>, target: Database,
                              db: Database) {
    && InsertsRemaining(inserted, tables, linked)
    && Published(db, inserted, tables, target)
    && (forall n :: !PatchRepeats(n, inserted, tables))
    && exists order :: InsertedIn(order, inserted, tables, target)
  }

  lemma NothingLeft(w: Work, order: seq<Node>, tables: seq<Table>, linked: set<string>, target: Database)
    requires Running(w, order, tables, linked, target) && Remaining(w.pending, |tables|) == 0
    ensures InsertsRemaining(w.inserted, tables, linked)
  {
    hide DatabaseHolds, ReferencesHold, EdgesHold, OrderFits, OrderCovers, IsLinked;
    RemainingZero(w.pending, |tables|);
  }

  ghost predicate UsersPresent(target: Database, linked: set<string>) {
    forall u :: u in linked ==> UserExists(target, u)
  }

  /** Nothing inserted and nothing to patch yet. */
  function Begin(tables: seq<Table>, target: Database): Work {
    Work(target, seq(|tables|, t requires 0 <= t < |tables| => tables[t].rows), seq(|tables|, t => []), [])
  }

  lemma BeginRuns(tables: seq<Table>, linked: set<string>, target: Database)
    requires TargetFits(target, tables)
    ensures Running(Begin(tables, target), [], tables, linked, target)
  {
    hide Ready, IsLinked, HasPostponed;
  }

  /** The loops of the import, once the snapshot is known to be closed and the linked users found. */
  method InsertAll(tables: seq<Table>, linked: set<string>, target: Database)
    returns (outcome: Outcome, w: Work, ghost order: seq<Node>)
    requires TablesFit(tables) && TargetFits(target, tables)
    ensures Running(w, order, tables, linked, target)
    ensures outcome.Imported? ==> w.inserted == outcome.inserted && Remaining(w.pending, |tables|) == 0
    ensures !outcome.Imported? ==> StoppedIn(outcome, w, order, tables, linked, target)
  {
    hide Sound, OrderFits, OrderCovers, TablesFit, TargetFits, Begin, Explains, AllStuck, Grows;
    w, order := Begin(tables, target), [];
    BeginRuns(tables, linked, target);
    ShapedIfRunning(w, order, tables, linked, target);
    var remaining := Remaining(w.pending, |tables|);
    while remaining > 0
      invariant Running(w, order, tables, linked, target) && Shaped(w, tables)
      invariant remaining == Remaining(w.pending, |tables|)
    {
      var progress, failure;
      w, progress, failure, order := Pass(tables, linked, target, w, order);
      ShapedIfRunning(w, order, tables, linked, target);
      if failure.Some? {
        outcome := failure.value;
        ExplainsIsFailure(outcome, w, tables, linked);
        return;
      }
      remaining := remaining - progress;
      if progress == 0 {
        outcome := NoProgress(w);
        return;
      }
    }
    outcome := Imported(w.inserted);
  }

  lemma ShapedIfRunning(w: Work, order: seq<Node>, tables: seq<Table>, linked: set<string>, target: Database)
    requires Running(w, order, tables, linked, target)
    ensures Shaped(w, tables)
  {
    hide DatabaseHolds, RowsCovered, ReferencesHold, EdgesHold, OrderFits, OrderCovers;
  }

  lemma ExplainsIsFailure(failure: Outcome, w: Work, tables: seq<Table>, linked: set<string>)
    requires Explains(failure, w, tables, linked)
    ensures !failure.Imported?
  {
  }

  /** A row to insert whose patch lists a column twice. */
  ghost predicate PatchWouldRepeat(n: Node, tables: seq<Table>, linked: set<string>) {
    IsRow(tables, n) && !IsLinked(tables[n.table], n.row, linked) && RepeatsColumn(tables[n.table], n.row)
  }

  /** The database after the transaction, and why it failed if it did. */
  ghost predicate TransactionHolds(result: Result, db: Database, target: Database, tables: seq<Table>,
                                   users: seq<string>) {
    && (result.Committed? ==> CommitHolds(result.inserted, tables, SetOf(users), target, db))
    && (!result.Committed? ==> db == target)
    && (result.NotClosed? <==> !Closed(tables, SetOf(users)))
    && (result.LinkedUserMissing? ==> result.user in users && !UserExists(target, result.user))
    && (!result.NotClosed? && !result.LinkedUserMissing? ==> UsersPresent(target, SetOf(users)))
    && (result.Refused? ==> exists w, done :: StoppedIn(result.why, w, done, tables, SetOf(users), target))
    && (result.PatchRefused? ==> PatchWouldRepeat(result.node, tables, SetOf(users)))
  }

  /** The transaction: check, insert, patch, commit. A failure at any point leaves the target as it
      was. */
  method ImportSnapshot(target: Database, tables: seq<Table>, users: seq<string>)
    returns (result: Result, db: Database)
    requires TablesFit(tables) && TargetFits(target, tables)
    ensures TransactionHolds(result, db, target, tables, users)
  {
    hide Closed, Exists, Running, TablesFit, TargetFits, Published, InsertsRemaining, StoppedIn, PatchRepeats,
      PatchWouldRepeat, OrderFits, OrderCovers, Sound;
    var linked := SetOf(users);
    db := target;
    var closed := CheckClosure(tables, linked);
    if !closed {
      return NotClosed, target;
    }
    for i := 0 to |users|
      invariant forall j :: 0 <= j < i ==> UserExists(target, users[j])
    {
      if !UserExists(target, users[i]) {
        return LinkedUserMissing(users[i]), target;
      }
    }
    var outcome, w;
    ghost var order;
    outcome, w, order := InsertAll(tables, linked, target);
    if !outcome.Imported? {
      result := Refused(outcome);
      return;
    }
    NothingLeft(w, order, tables, linked, target);
    SoundIfRunning(w, order, tables, linked, target);
    assert InsertedIn(order, w.inserted, tables, target);
    var refused;
    db, refused := ApplyPatches(w, tables, linked, target);
    if refused.Some? {
      RepeatingRowIsImported(refused.value, w.inserted, tables, linked);
      return PatchRefused(refused.value), target;
    }
    result := Committed(w.inserted);
  }

  lemma RepeatingRowIsImported(n: Node, inserted: seq<seq<Row>>, tables: seq<Table>, linked: set<string>)
    requires PatchRepeats(n, inserted, tables) && InsertsRemaining(inserted, tables, linked)
    ensures PatchWouldRepeat(n, tables, linked)
  {
    hide IsLinked, RepeatsColumn;
  }

  lemma SoundIfRunning(w: Work, order: seq<Node>, tables: seq<Table>, linked: set<string>, target: Database)
    requires Running(w, order, tables, linked, target)
    ensures Sound(w, tables, linked, target) && OrderFits(order, tables, target) && OrderCovers(order, w.inserted)
    ensures RequiredFilled(order, tables)
  {
  }

  // ---------- reading back ----------

  /** The recorded rows of one table are all stored, unchanged, and none is missing from the record. */
  ghost predicate TableStands(db: Database, table: Table, inserted: seq<Row>) {
    && (table.name != "User" ==> |inserted| == |table.rows|)
    && forall i :: 0 <= i < |inserted| ==> RowStands(db, table, inserted[i])
  }

  predicate RowStands(db: Database, table: Table, row: Row) {
    table.name in db && KeyOf(table, row) in db[table.name] && db[table.name][KeyOf(table, row)] == row
  }

  /** The verification that a commit ends with and a retry repeats. */
  method VerifyImported(db: Database, tables: seq<Table>, inserted: seq<seq<Row>>) returns (stands: bool)
    ensures stands <==> |inserted| == |tables| && forall t :: 0 <= t < |tables| ==> TableStands(db, tables[t], inserted[t])
  {
    hide RowStands;
    if |inserted| != |tables| {
      return false;
    }
    for t := 0 to |tables|
      invariant forall u :: 0 <= u < t ==> TableStands(db, tables[u], inserted[u])
    {
      if tables[t].name != "User" && |inserted[t]| != |tables[t].rows| {
        return false;
      }
      for i := 0 to |inserted[t]|
        invariant forall j :: 0 <= j < i ==> RowStands(db, tables[t], inserted[t][j])
      {
        if !RowStands(db, tables[t], inserted[t][i]) {
          assert !TableStands(db, tables[t], inserted[t]);
          return false;
        }
      }
    }
    return true;
  }

  /** The verification cannot fail right after the rows were written. */
  lemma CommitStands(inserted: seq<seq<Row>>, tables: seq<Table>, linked: set<string>, target: Database, db: Database)
    requires CommitHolds(inserted, tables, linked, target, db)
    ensures forall t :: 0 <= t < |tables| ==> TableStands(db, tables[t], inserted[t])
  {
    hide InsertedIn, IsLinked, KeyOf;
    forall t | 0 <= t < |tables| ensures TableStands(db, tables[t], inserted[t]) {
      assert TablePublished(db[tables[t].name], target[tables[t].name], tables[t], inserted[t]);
      SameSize(inserted[t], tables[t].rows);
    }
  }

  lemma SameSize(a: seq<Row>, b: seq<Row>)
    ensures multiset(a) == multiset(b) ==> |a| == |b|
  {
    assert |multiset(a)| == |a| && |multiset(b)| == |b|;
  }
}
