/** Sequences and the outbox: how one evaluation supersedes and appends pending intents. */
module LedgerOutbox {
  import opened Common
  import opened LedgerTypes

  type Values = map<Subject, Evaluation>
  type Entries = map<Subject, EvaluationEntry>

  /** What the transition of every subject depends on. */
  datatype Change = Change(before: Entries, outbox: Outbox, policy: PolicyDigest, samePolicy: bool, values: Values)

  function IsPending(e: Event): bool {
    e.status == PendingNoTransport
  }

  predicate Unchanged(c: Change, x: Subject)
    requires x in c.values
  {
    c.samePolicy && x in c.before && c.before[x].fingerprint == EvaluationDigest(c.values[x])
  }

  function SequenceOf(c: Change, x: Subject): int
    requires x in c.values
  {
    if x !in c.before then 1
    else if Unchanged(c, x) then c.before[x].sequence
    else c.before[x].sequence + 1
  }

  function EntryOf(c: Change, x: Subject): EvaluationEntry
    requires x in c.values
  {
    EvaluationEntry(EvaluationDigest(c.values[x]), SequenceOf(c, x), c.values[x])
  }

  function EntriesAfter(c: Change): Entries {
    map x | x in c.values :: EntryOf(c, x)
  }

  /** Pending when the loop starts: not yet superseded, and still evaluated. */
  predicate PendingFor(c: Change, x: Subject) {
    x in c.values && exists id :: id in c.outbox && IsPending(c.outbox[id]) && c.outbox[id].subject == x
  }

  predicate WasQualified(c: Change, x: Subject) {
    x in c.before && c.before[x].value.qualifies
  }

  /** A change of this subject's evaluation that has to be announced or corrected. */
  predicate IsTransition(c: Change, x: Subject) {
    && x in c.values
    && !Unchanged(c, x)
    && (c.values[x].qualifies || IsBelowThreshold(c.values[x]) || PendingFor(c, x) || WasQualified(c, x))
  }

  function NewId(c: Change, x: Subject): EventId
    requires x in c.values
  {
    EventId(x, SequenceOf(c, x), c.policy, EvaluationDigest(c.values[x]))
  }

  function NewEvent(c: Change, x: Subject): Event
    requires x in c.values
  {
    Event(NewId(c, x), x, SequenceOf(c, x),
          if PendingFor(c, x) || WasQualified(c, x) then CorrectionPending
          else if IsBelowThreshold(c.values[x]) then BelowThresholdPending
          else QualificationPending,
          PendingNoTransport, c.values[x],
          if x in c.before then Some(c.before[x].value) else None)
  }

  /** An old event's fate once the subjects of `done` have been processed. */
  function KeptEvent(c: Change, done: set<Subject>, e: Event): Event {
    if IsPending(e) && (e.subject !in c.values || (e.subject in done && IsTransition(c, e.subject)))
    then e.(status := Superseded) else e
  }

  predicate IsNewId(c: Change, done: set<Subject>, id: EventId) {
    id.subject in done && IsTransition(c, id.subject) && id == NewId(c, id.subject) && id !in c.outbox
  }

  function NewIds(c: Change, done: set<Subject>): set<EventId> {
    set x | x in done && IsTransition(c, x) && NewId(c, x) !in c.outbox :: NewId(c, x)
  }

  lemma NewIdsAre(c: Change, done: set<Subject>, id: EventId)
    ensures id in NewIds(c, done) <==> IsNewId(c, done, id)
  {
    if IsNewId(c, done, id) {
      assert NewId(c, id.subject) in NewIds(c, done);
    }
  }

  /** The outbox once the subjects of `done` have been processed. */
  function OutboxAfter(c: Change, done: set<Subject>): Outbox
  {
    (map id | id in c.outbox :: KeptEvent(c, done, c.outbox[id]))
    + (map id | id in NewIds(c, done) && id.subject in c.values :: NewEvent(c, id.subject))
  }

  /** Looking one id up in the new outbox. */
  lemma OutboxAfterAt(c: Change, done: set<Subject>, id: EventId)
    ensures id in OutboxAfter(c, done) <==> id in c.outbox || IsNewId(c, done, id)
    ensures id in c.outbox ==> OutboxAfter(c, done)[id] == KeptEvent(c, done, c.outbox[id])
    ensures IsNewId(c, done, id) ==> OutboxAfter(c, done)[id] == NewEvent(c, id.subject)
  {
    hide NewEvent, SequenceOf;
    NewIdsAre(c, done, id);
  }

  // ---------- the loop ----------

  function Superseding(outbox: Outbox, x: Subject): Outbox {
    map id | id in outbox ::
      if outbox[id].subject == x && IsPending(outbox[id]) then outbox[id].(status := Superseded) else outbox[id]
  }

  function Expiring(outbox: Outbox, values: Values): Outbox {
    map id | id in outbox ::
      if outbox[id].subject !in values && IsPending(outbox[id]) then outbox[id].(status := Superseded) else outbox[id]
  }

  lemma SameOutbox(a: Outbox, b: Outbox)
    requires forall id :: id in a || id in b ==> id in a && id in b && a[id] == b[id]
    ensures a == b
  {
  }

  lemma ExpiringIsStart(c: Change)
    ensures Expiring(c.outbox, c.values) == OutboxAfter(c, {})
  {
    hide IsTransition, NewEvent, SequenceOf;
    forall id | id in Expiring(c.outbox, c.values) || id in OutboxAfter(c, {})
      ensures id in Expiring(c.outbox, c.values) && id in OutboxAfter(c, {})
           && Expiring(c.outbox, c.values)[id] == OutboxAfter(c, {})[id]
    {
      OutboxAfterAt(c, {}, id);
    }
    SameOutbox(Expiring(c.outbox, c.values), OutboxAfter(c, {}));
  }

  /** What the loop body does to the outbox for one subject. */
  function Processed(c: Change, outbox: Outbox, x: Subject): Outbox
    requires x in c.values
  {
    if !IsTransition(c, x) then outbox
    else
      var superseded := Superseding(outbox, x);
      if NewId(c, x) in outbox then superseded else superseded[NewId(c, x) := NewEvent(c, x)]
  }

  lemma ProcessedAt(c: Change, done: set<Subject>, x: Subject, id: EventId)
    requires x in c.values && x !in done
    ensures var a, b := Processed(c, OutboxAfter(c, done), x), OutboxAfter(c, done + {x});
      (id in a || id in b) ==> id in a && id in b && a[id] == b[id]
  {
    hide IsTransition, SequenceOf;
    OutboxAfterAt(c, done, id);
    OutboxAfterAt(c, done + {x}, id);
    OutboxAfterAt(c, done, NewId(c, x));
    assert !IsNewId(c, done, NewId(c, x));
  }

  lemma ProcessedNext(c: Change, done: set<Subject>, x: Subject)
    requires x in c.values && x !in done
    ensures Processed(c, OutboxAfter(c, done), x) == OutboxAfter(c, done + {x})
  {
    hide Processed, OutboxAfter;
    forall id { ProcessedAt(c, done, x, id); }
    SameOutbox(Processed(c, OutboxAfter(c, done), x), OutboxAfter(c, done + {x}));
  }

  /** The new intents of the first n subjects, in the order they are met. */
  function Intents(c: Change, order: seq<Subject>, n: nat): seq<Event>
    requires n <= |order|
  {
    if n == 0 then []
    else
      var x := order[n - 1];
      Intents(c, order, n - 1) + if IsTransition(c, x) && NewId(c, x) !in c.outbox then [NewEvent(c, x)] else []
  }

  function PendingSubjects(outbox: Outbox): set<Subject> {
    set id | id in outbox && IsPending(outbox[id]) :: outbox[id].subject
  }

  lemma PendingAtStart(c: Change, x: Subject)
    requires x in c.values
    ensures x in PendingSubjects(Expiring(c.outbox, c.values)) <==> PendingFor(c, x)
  {
    var expired := Expiring(c.outbox, c.values);
    if PendingFor(c, x) {
      var id :| id in c.outbox && IsPending(c.outbox[id]) && c.outbox[id].subject == x;
      assert id in expired && IsPending(expired[id]) && expired[id].subject == x;
    }
    if x in PendingSubjects(expired) {
      var id :| id in expired && IsPending(expired[id]) && expired[id].subject == x;
      assert id in c.outbox && IsPending(c.outbox[id]);
    }
  }

  /** The loop body for one subject. */
  method ProcessSubject(c: Change, x: Subject, outboxBefore: Outbox, outboxIds: set<EventId>, pending: bool,
                        entriesBefore: Entries)
    returns (isNew: bool, outbox: Outbox, entries: Entries)
    requires x in c.values
    requires outboxIds == outboxBefore.Keys && (NewId(c, x) in outboxBefore <==> NewId(c, x) in c.outbox)
    requires pending <==> PendingFor(c, x)
    ensures outbox == Processed(c, outboxBefore, x)
    ensures entries == entriesBefore[x := EntryOf(c, x)]
    ensures isNew <==> IsTransition(c, x) && NewId(c, x) !in c.outbox
    ensures outbox.Keys == outboxIds + if isNew then {NewId(c, x)} else {}
  {
    hide PendingFor;
    var value := c.values[x];
    var same := c.samePolicy && x in c.before && c.before[x].fingerprint == EvaluationDigest(value);
    var sequence := if same then c.before[x].sequence else if x in c.before then c.before[x].sequence + 1 else 1;
    entries := entriesBefore[x := EvaluationEntry(EvaluationDigest(value), sequence, value)];
    outbox, isNew := outboxBefore, false;
    if same { return; }
    var wasQualified := x in c.before && c.before[x].value.qualifies;
    if value.qualifies || IsBelowThreshold(value) || pending || wasQualified {
      outbox := Superseding(outbox, x);
      var id := EventId(x, sequence, c.policy, EvaluationDigest(value));
      if id !in outboxIds {
        isNew := true;
        outbox := outbox[id := Event(
          id, x, sequence,
          if pending || wasQualified then CorrectionPending
          else if IsBelowThreshold(value) then BelowThresholdPending else QualificationPending,
          PendingNoTransport, value, if x in c.before then Some(c.before[x].value) else None)];
      }
    }
  }

  function EntriesFor(c: Change, done: set<Subject>): Entries {
    map x | x in done && x in c.values :: EntryOf(c, x)
  }

  lemma NoEntries(c: Change)
    ensures EntriesFor(c, {}) == map[]
  {
  }

  lemma EntriesNext(c: Change, done: set<Subject>, x: Subject)
    requires x in c.values
    ensures EntriesFor(c, done + {x}) == EntriesFor(c, done)[x := EntryOf(c, x)]
  {
  }

  lemma AllEntries(c: Change)
    ensures EntriesFor(c, c.values.Keys) == EntriesAfter(c)
  {
  }

  lemma NotProcessedBefore(c: Change, done: set<Subject>, x: Subject)
    requires x in c.values && x !in done
    ensures NewId(c, x) in OutboxAfter(c, done) <==> NewId(c, x) in c.outbox
  {
    OutboxAfterAt(c, done, NewId(c, x));
  }

  function FirstOf(order: seq<Subject>, n: nat): set<Subject>
    requires n <= |order|
  {
    if n == 0 then {} else FirstOf(order, n - 1) + {order[n - 1]}
  }

  lemma {:induction false} FirstOfIs(order: seq<Subject>, n: nat)
    requires n <= |order|
    ensures forall x :: x in FirstOf(order, n) <==> exists j :: 0 <= j < n && order[j] == x
  {
    if n > 0 {
      FirstOfIs(order, n - 1);
    }
  }

  /** The evaluation's outbox loop over the subjects in any order: entries and outbox do not
      depend on the order, the new intents are listed in it. */
  method AdvanceOutbox(c: Change, order: seq<Subject>) returns (entries: Entries, outbox: Outbox,
                       transitions: seq<Event>)
    requires forall x :: x in c.values <==> x in order
    requires forall i, j :: 0 <= i < j < |order| ==> order[i] != order[j]
    ensures entries == EntriesAfter(c)
    ensures outbox == OutboxAfter(c, c.values.Keys)
    ensures transitions == Intents(c, order, |order|)
  {
    hide OutboxAfter, IsTransition, PendingFor, Processed, EntryOf, NewId, NewEvent, EntriesFor, Expiring,
      PendingSubjects;
    outbox := Expiring(c.outbox, c.values);
    ExpiringIsStart(c);
    forall x | x in c.values { PendingAtStart(c, x); }
    var outboxIds := outbox.Keys;
    var pendingSubjects := PendingSubjects(outbox);
    entries, transitions := map[], [];
    NoEntries(c);
    ghost var done: set<Subject> := {};
    var i := 0;
    while i < |order|
      invariant 0 <= i <= |order|
      invariant done == FirstOf(order, i)
      invariant entries == EntriesFor(c, done)
      invariant outbox == OutboxAfter(c, done) && outboxIds == outbox.Keys
      invariant forall x :: x in c.values && x !in done ==> (x in pendingSubjects <==> PendingFor(c, x))
      invariant transitions == Intents(c, order, i)
    {
      var x := order[i];
      assert x in order;
      FirstOfIs(order, i);
      NotProcessedBefore(c, done, x);
      EntriesNext(c, done, x);
      ProcessedNext(c, done, x);
      var isNew;
      isNew, outbox, entries := ProcessSubject(c, x, outbox, outboxIds, x in pendingSubjects, entries);
      if isNew {
        outboxIds := outboxIds + {NewId(c, x)};
        pendingSubjects := pendingSubjects + {x};
        transitions := transitions + [NewEvent(c, x)];
      }
      done := done + {x};
      i := i + 1;
    }
    FirstOfIs(order, |order|);
    assert done == c.values.Keys;
    AllEntries(c);
  }
}
