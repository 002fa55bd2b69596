/** A run of the protocol on a small published ledger: the ledger changes while a send is under way. */
module DispatchWitness {
  import opened Common
  import opened Calendar
  import opened LedgerTypes
  import opened LedgerAdmission
  import opened LedgerReplay
  import opened LedgerOutbox
  import opened LedgerHistory
  import opened LedgerStored
  import opened LedgerWitness
  import opened Ledger
  import opened Dispatch
  import opened DispatchSafety
  import opened DispatchWorker

  // ---------- a published ledger ----------

  /** The small ledger as a first publish makes it durable, and an event of it that may be sent. */
  ghost predicate Published(doc: Document, e: EventId) {
    && Evaluate(FULL, POLICY, NOW, EMPTY_STATE) == Some(doc.commit.state)
    && doc == NextDocument(None, doc.commit.state, POLICY, NOW)
    && Dispatch.Valid(doc) && JobAccepted(Job(e, "", NOW)) && Sendable(doc, Job(e, "", NOW))
    && Evaluate(FULL, POLICY, NOW, doc.commit.state) == Some(doc.commit.state)
  }

  lemma SmallLedger() returns (doc: Document, e: EventId)
    ensures Published(doc, e)
  {
    hide Evaluate, Healthy, StateAccepted, HasPending, SequencesBelow, ValuesOf, MarkOf, MonthOf;
    var s := AfterFirst();
    Clocks();
    e := PendingEvent(s, X);
    doc := NextDocument(None, s, POLICY, NOW);
    EvaluateIsIdempotent(FULL, POLICY, NOW, EMPTY_STATE, s);
    assert Eligible(s, e) == Some(s.outbox[e]) && s.outbox[e].current.date == 61 by { PendingShowsDate(s, e); }
    FreshToday(s, e);
  }

  lemma PendingEvent(s: State, x: Subject) returns (e: EventId)
    requires HasPending(s, x)
    ensures e in s.outbox && IsPending(s.outbox[e]) && s.outbox[e].subject == x
  {
    e :| e in s.outbox && IsPending(s.outbox[e]) && s.outbox[e].subject == x;
  }

  lemma PendingShowsDate(s: State, e: EventId)
    requires Healthy(s) && e in s.outbox && IsPending(s.outbox[e])
    ensures Eligible(s, e) == Some(s.outbox[e]) && s.outbox[e].current.date == s.outbox[e].subject.date
  {
    hide CountsFit;
  }

  lemma FreshToday(s: State, e: EventId)
    requires ClockAccepted(NOW) && Eligible(s, e).Some? && Eligible(s, e).value.current.date == 61
    requires s.snapshots == map[2 := MarkOf(MARCH, "m1")]
    ensures Sendable(NextDocument(None, s, POLICY, NOW), Job(e, "", NOW))
  {
    hide Eligible, ClockAccepted, MonthOf, ContentHash, MappingHash;
    Clocks();
  }

  // ---------- runs of a few steps ----------

  lemma RunLast(w: World, actions: seq<Action>, a: Action)
    ensures Run(w, actions + [a]) == Apply(Run(w, actions), a)
  {
    hide Apply;
    assert (actions + [a])[..|actions|] == actions;
  }

  lemma RunThree(w: World, a: Action, b: Action, c: Action)
    ensures Run(w, [a, b, c]) == Apply(Apply(Apply(w, a), b), c)
  {
    hide Apply, Run;
    RunNothing(w);
    RunLast(w, [], a);
    RunLast(w, [a], b);
    RunLast(w, [a, b], c);
    assert [] + [a] == [a] && [a] + [b] == [a, b] && [a, b] + [c] == [a, b, c];
  }

  lemma ApplyLeavesOthers(w: World, a: Action, id: nat)
    requires ActorOf(a) != id
    ensures (id in Apply(w, a).workers <==> id in w.workers) && (id in w.workers ==> Apply(w, a).workers[id] == w.workers[id])
  {
    hide Valid, ClockAccepted, FreshForSend, Eligible, AfterLookup, PublishRead, DispatchRead, RecordRead,
      ClaimedDocument, ReservedDocument, RecordedDocument, RetiredDocument;
  }

  /** A worker is where it was while only others take steps. */
  lemma {:induction false} RunLeavesOthers(w: World, actions: seq<Action>, id: nat)
    requires forall k :: 0 <= k < |actions| ==> ActorOf(actions[k]) != id
    ensures (id in Run(w, actions).workers <==> id in w.workers) && (id in w.workers ==> Run(w, actions).workers[id] == w.workers[id])
    decreases |actions|
  {
    hide Apply;
    if actions != [] {
      var n := |actions| - 1;
      RunLeavesOthers(w, actions[..n], id);
      ApplyLeavesOthers(Run(w, actions[..n]), actions[n], id);
    }
  }

  function PublishSteps(id: nat, manifest: Manifest, policy: Policy, now: Time): seq<Action> {
    [BeginPublish(id, manifest, policy, now), Step(id, Proceed), Step(id, Wrote)]
  }

  /** A publish that nothing stands in the way of. */
  lemma PublishRuns(w: World, id: nat, manifest: Manifest, policy: Policy, now: Time, state: State)
    requires id !in w.workers && (w.store.Some? ==> Dispatch.Valid(w.store.value.doc) && !HasOpenEntry(w.store.value.doc))
    requires Evaluate(manifest, policy, now, StateOf(w.store)) == Some(state)
    requires Dispatch.Valid(NextDocument(w.store, state, policy, now))
    ensures var v := Run(w, PublishSteps(id, manifest, policy, now));
      && v.store == Some(Cell(NextDocument(w.store, state, policy, now), w.nextTag)) && v.nextTag == w.nextTag + 1
      && v.sends == w.sends && v.workers.Keys == w.workers.Keys + {id}
  {
    hide Run, Apply, Valid, HasOpenEntry, Evaluate, PublishRead, NextDocument;
    var begin := BeginPublish(id, manifest, policy, now);
    var w1 := Apply(w, begin);
    BeginPublishApplies(w, id, manifest, policy, now);
    var w2 := Apply(w1, Step(id, Proceed));
    PublishReadApplies(w1, id, manifest, policy, now);
    PublishReadIs(w1, manifest, policy, now);
    var next := NextDocument(w.store, state, policy, now);
    PublishWriteWrites(w2, id, w.store, next);
    WriteApplies(w2, id, if w.store.Some? then Some(w.store.value.tag) else None, next, Wrote);
    RunThree(w, begin, Step(id, Proceed), Step(id, Wrote));
    KeysAfter(w, begin);
    KeysAfter(w1, Step(id, Proceed));
    KeysAfter(w2, Step(id, Wrote));
  }

  lemma KeysAfter(w: World, a: Action)
    requires ActorOf(a) in Apply(w, a).workers
    ensures Apply(w, a).workers.Keys == w.workers.Keys + {ActorOf(a)}
  {
    hide Apply;
    forall id | id != ActorOf(a) ensures id in Apply(w, a).workers <==> id in w.workers {
      ApplyLeavesOthers(w, a, id);
    }
    ApplyKeeps(w, a);
  }

  lemma ApplyKeeps(w: World, a: Action)
    ensures ActorOf(a) in w.workers ==> ActorOf(a) in Apply(w, a).workers
  {
    hide Valid, ClockAccepted, FreshForSend, Eligible, AfterLookup, PublishRead, DispatchRead, RecordRead,
      ClaimedDocument, ReservedDocument, RecordedDocument, RetiredDocument;
  }

  function ClaimSteps(id: nat, job: Job): seq<Action> {
    [BeginDispatch(id, job), Step(id, Proceed), Step(id, Wrote)]
  }

  function ReserveSteps(id: nat): seq<Action> {
    [Step(id, Found(Absent)), Step(id, Wrote), Step(id, Proceed)]
  }

  /** A dispatch up to its claim. */
  lemma ClaimRuns(w: World, id: nat, job: Job, read: Cell)
    requires id !in w.workers && w.store == Some(read) && Dispatch.Valid(read.doc) && JobAccepted(job)
    requires MayClaim(read.doc, job)
    ensures var v, claimed := Run(w, ClaimSteps(id, job)), Cell(ClaimedDocument(read.doc, job), w.nextTag);
      && v.store == Some(claimed) && v.nextTag == w.nextTag + 1 && IsAt(v, id, Looking(job, claimed))
      && v.sends == w.sends && v.workers.Keys == w.workers.Keys + {id}
  {
    hide Run, Apply, Valid, ClockAccepted, DispatchRead, MayClaim, ClaimedDocument;
    MayClaimWrites(read.doc, job);
    var w1 := Apply(w, BeginDispatch(id, job));
    BeginApplies(w, id, job);
    var w2 := Apply(w1, Step(id, Proceed));
    DispatchReadApplies(w1, id, job);
    MayClaimDecides(w1, job, read);
    ClaimApplies(w2, id, job, read);
    WriteApplies(w2, id, Some(read.tag), ClaimedDocument(read.doc, job), Wrote);
    RunThree(w, BeginDispatch(id, job), Step(id, Proceed), Step(id, Wrote));
    KeysAfter(w, BeginDispatch(id, job));
    KeysAfter(w1, Step(id, Proceed));
    KeysAfter(w2, Step(id, Wrote));
  }

  /** From a claim to the send. */
  lemma ReserveRuns(w: World, id: nat, job: Job, claimed: Cell)
    requires w.store == Some(claimed) && IsAt(w, id, Looking(job, claimed)) && JobAccepted(job)
    requires job.event in claimed.doc.journal
    requires Sendable(claimed.doc, job) && Entry(claimed.doc, job).attempts < MAX_ATTEMPTS
    requires Dispatch.Valid(ReservedDocument(claimed.doc, job))
    ensures var v, reserved := Run(w, ReserveSteps(id)), ReservedDocument(claimed.doc, job);
      && v.store == Some(Cell(reserved, w.nextTag)) && IsAt(v, id, AwaitingSend(job, reserved))
      && |v.sends| == |w.sends| + 1 && v.workers.Keys == w.workers.Keys
  {
    hide Run, Apply, Valid, ClockAccepted, FreshForSend, Eligible, AfterLookup, ReservedDocument;
    var w1 := Apply(w, Step(id, Found(Absent)));
    LookupApplies(w, id, job, claimed, Absent);
    AfterLookupIs(job, claimed, Absent);
    var w2 := Apply(w1, Step(id, Wrote));
    ReserveApplies(w1, id, job, claimed);
    WriteApplies(w1, id, Some(claimed.tag), ReservedDocument(claimed.doc, job), Wrote);
    StillInJournal(claimed.doc, job);
    SendApplies(w2, id, job, ReservedDocument(claimed.doc, job), claimed.tag);
    RunThree(w, Step(id, Found(Absent)), Step(id, Wrote), Step(id, Proceed));
    KeysAfter(w, Step(id, Found(Absent)));
    KeysAfter(w1, Step(id, Wrote));
    KeysAfter(w2, Step(id, Proceed));
  }

  lemma StillInJournal(doc: Document, job: Job)
    requires job.event in doc.journal
    ensures job.event in ReservedDocument(doc, job).journal
  {
  }

  /** A claim of a sendable event is sendable, and its reservation a valid document. */
  lemma ClaimIsSendable(doc: Document, job: Job)
    requires Dispatch.Valid(doc) && JobAccepted(job) && MayClaim(doc, job) && Sendable(doc, job)
    requires AttemptsSoFar(doc, job) < MAX_ATTEMPTS
    ensures var claimed := ClaimedDocument(doc, job);
      && Dispatch.Valid(claimed) && job.event in claimed.journal && Sendable(claimed, job)
      && Entry(claimed, job).attempts == AttemptsSoFar(doc, job) && Dispatch.Valid(ReservedDocument(claimed, job))
      && job.event in ReservedDocument(claimed, job).journal
      && ReservedDocument(claimed, job).journal[job.event].attempts == AttemptsSoFar(doc, job) + 1
  {
    hide MayClaim, FreshForSend, Eligible, ClockAccepted, StateAccepted;
    MayClaimWrites(doc, job);
    ClaimWritesEntry(doc, job);
    var entry := ClaimEntry(doc, job);
    WithEntryIsValid(ClaimedDocument(doc, job), job, entry.(attempts := entry.attempts + 1));
  }

  function SendSteps(id: nat, job: Job): seq<Action> {
    ClaimSteps(id, job) + ReserveSteps(id)
  }

  /** A dispatch up to its send. */
  lemma SendRuns(w: World, id: nat, job: Job, read: Cell)
    requires id !in w.workers && w.store == Some(read) && Dispatch.Valid(read.doc) && JobAccepted(job)
    requires MayClaim(read.doc, job) && Sendable(read.doc, job) && AttemptsSoFar(read.doc, job) < MAX_ATTEMPTS
    ensures var v := Run(w, SendSteps(id, job));
      var reserved := ReservedDocument(ClaimedDocument(read.doc, job), job);
      && v.store == Some(Cell(reserved, w.nextTag + 1)) && IsAt(v, id, AwaitingSend(job, reserved))
      && |v.sends| == |w.sends| + 1 && v.workers.Keys == w.workers.Keys + {id}
  {
    hide Run, Valid, ClockAccepted, MayClaim, Sendable, ClaimedDocument, ReservedDocument, ClaimSteps, ReserveSteps;
    ClaimIsSendable(read.doc, job);
    ClaimRuns(w, id, job, read);
    ReserveRuns(Run(w, ClaimSteps(id, job)), id, job, Cell(ClaimedDocument(read.doc, job), w.nextTag));
    RunContinues(w, ClaimSteps(id, job), ReserveSteps(id));
  }

  // ---------- the ledger moves while a send is under way ----------

  lemma SendableByAll(doc: Document, e: EventId, owner: string)
    requires Published(doc, e)
    ensures var job := Job(e, owner, NOW);
      JobAccepted(job) && MayClaim(doc, job) && Sendable(doc, job) && AttemptsSoFar(doc, job) == 0
  {
    hide Evaluate, Valid, FreshForSend, Eligible, ClockAccepted;
  }

  lemma LeaseRunsOut(e: EventId)
    ensures JobAccepted(Job(e, "second", NOW + LEASE_SECONDS))
  {
    hide MonthOf;
    Months();
  }

  /** The first worker is between its send and the answer; its reservation expired long ago. */
  lemma FirstSends(doc: Document, e: EventId) returns (actions: seq<Action>)
    requires Published(doc, e)
    ensures var w, job := Run(START, actions), Job(e, "first", NOW);
      var reserved := ReservedDocument(ClaimedDocument(doc, job), job);
      && w.store == Some(Cell(reserved, 2)) && w.workers.Keys == {0, 1} && |w.sends| == 1
      && IsAt(w, 1, AwaitingSend(job, reserved))
  {
    hide Run, Evaluate, Valid, FreshForSend, Eligible, ClockAccepted, MayClaim, NextDocument, Sendable,
      ClaimedDocument, ReservedDocument;
    var job := Job(e, "first", NOW);
    PublishRuns(START, 0, FULL, POLICY, NOW, doc.commit.state);
    var w0 := Run(START, PublishSteps(0, FULL, POLICY, NOW));
    SendableByAll(doc, e, "first");
    SendRuns(w0, 1, job, Cell(doc, 0));
    RunContinues(START, PublishSteps(0, FULL, POLICY, NOW), SendSteps(1, job));
    actions := PublishSteps(0, FULL, POLICY, NOW) + SendSteps(1, job);
  }

  lemma ReservedIsOpen(doc: Document, e: EventId)
    requires doc.journal == map[]
    ensures var job := Job(e, "first", NOW);
      var reserved := ReservedDocument(ClaimedDocument(doc, job), job);
      && reserved.commit == doc.commit && reserved.journal.Keys == {e}
      && IsOpen(reserved.journal[e]) && reserved.journal[e].leaseUntil == NOW + LEASE_SECONDS
  {
  }

  /** A second worker takes over and resolves the entry. */
  lemma SecondResolves(doc: Document, e: EventId) returns (actions: seq<Action>)
    requires Published(doc, e)
    ensures var w, job := Run(START, actions), Job(e, "first", NOW);
      && w.store.Some? && w.store.value.doc.commit == doc.commit && Dispatch.Valid(w.store.value.doc)
      && w.store.value.doc.journal.Keys == {e} && w.store.value.doc.journal[e].status == Acknowledged
      && 3 !in w.workers && |w.sends| == 1
      && IsAt(w, 1, AwaitingSend(job, ReservedDocument(ClaimedDocument(doc, job), job)))
  {
    hide Run, Evaluate, Valid, FreshForSend, Eligible, ClockAccepted, NextDocument, Sendable, ClaimedDocument,
      ReservedDocument, Inv, RecoverySchedule;
    var begun := FirstSends(doc, e);
    var w := Run(START, begun);
    ReachableIsSound(begun);
    assert doc.journal == map[] by { NoJournalYet(doc, e); }
    ReservedIsOpen(doc, e);
    LeaseRunsOut(e);
    var job := Job(e, "second", NOW + LEASE_SECONDS);
    ExpiredClaimsCanBeRecovered(w, 2, job, "receipt");
    OnlyActs(2, job, "receipt");
    RunLeavesOthers(w, RecoverySchedule(2, job, "receipt"), 1);
    RunLeavesOthers(w, RecoverySchedule(2, job, "receipt"), 3);
    actions := begun + RecoverySchedule(2, job, "receipt");
    RunContinues(START, begun, RecoverySchedule(2, job, "receipt"));
    DurableDocumentsAreValid(actions);
  }

  lemma NoJournalYet(doc: Document, e: EventId)
    requires Published(doc, e)
    ensures doc.journal == map[] && doc.commit.sequence == 1
  {
    hide Evaluate, Valid, Sendable;
  }

  lemma OnlyActs(id: nat, job: Job, receipt: string)
    ensures forall k :: 0 <= k < |RecoverySchedule(id, job, receipt)| ==> ActorOf(RecoverySchedule(id, job, receipt)[k]) == id
  {
  }

  lemma ResolvedAllowsPublish(cell: Cell, state: State, e: EventId)
    requires Dispatch.Valid(cell.doc) && cell.doc.commit.state == state && cell.doc.commit.sequence == 1
    requires cell.doc.journal.Keys == {e} && cell.doc.journal[e].status == Acknowledged
    ensures !HasOpenEntry(cell.doc) && Dispatch.Valid(NextDocument(Some(cell), state, POLICY, NOW))
  {
    hide StateAccepted;
    assert e in cell.doc.journal;
    assert forall k :: k in cell.doc.journal ==> k == e by {
      assert forall k :: k in cell.doc.journal ==> k in cell.doc.journal.Keys;
    }
  }

  /** The ledger is frozen only until the entry is resolved, not until every send has returned: here a
      worker still waits for its send when the next commit is already durable. */
  lemma LedgerMovesDuringSend() returns (actions: seq<Action>, e: EventId)
    ensures var w := Run(START, actions);
      && w.store.Some? && w.store.value.doc.commit.sequence == 2 && |w.sends| == 1
      && 1 in w.workers && w.workers[1].AwaitingSend? && w.workers[1].job.event == e
      && w.workers[1].reserved.commit.sequence == 1
  {
    hide Run, Evaluate, Valid, FreshForSend, Eligible, ClockAccepted, Sendable, HasOpenEntry;
    var doc;
    doc, e := SmallLedger();
    NoJournalYet(doc, e);
    var resolved := SecondResolves(doc, e);
    var w := Run(START, resolved);
    ResolvedAllowsPublish(w.store.value, doc.commit.state, e);
    PublishRuns(w, 3, FULL, POLICY, NOW, doc.commit.state);
    RunLeavesOthers(w, PublishSteps(3, FULL, POLICY, NOW), 1);
    actions := resolved + PublishSteps(3, FULL, POLICY, NOW);
    RunContinues(START, resolved, PublishSteps(3, FULL, POLICY, NOW));
    ReservedIsOpen(doc, e);
  }
}
