/** What may be sent, and what a dispatch does before it claims, in dates and times. */
module DispatchMeaning {
  import opened Common
  import opened Calendar
  import opened LedgerTypes
  import opened LedgerAdmission
  import opened Dispatch
  import opened DispatchSafety
  import opened DispatchWorker

  /** The date lies between the first day of the month before today's and today. */
  ghost predicate OfTwoMonths(date: Day, now: Time) {
    exists m: Month :: m >= 1 && MonthStart(m) <= now / 86400 < MonthStart(m + 1) && MonthStart(m - 1) <= date <= now / 86400
  }

  /** The date's month has a snapshot that was exported at most so many hours ago. */
  ghost predicate SourceWithin(marks: map<Month, SnapshotMark>, date: Day, hours: int, now: Time) {
    exists p :: p in marks && MonthStart(p) <= date < MonthStart(p + 1) && 0 <= now - marks[p].exportedAt <= hours * 3600
  }

  /** The event is pending and still shows the subject's present value under its present sequence. */
  predicate Current(state: State, id: EventId) {
    && id in state.outbox && state.outbox[id].status == PendingNoTransport
    && var event := state.outbox[id];
       && event.subject in state.evaluations
       && state.evaluations[event.subject].sequence == event.sequence && state.evaluations[event.subject].value == event.current
       && state.policy.Some?
       && id == EventId(event.subject, event.sequence, state.policy.value, state.evaluations[event.subject].fingerprint)
  }

  /** An event that may be sent: it is current, of the last two months, in a ledger committed recently, and
      what it claims of an amount rests on a recent export. */
  ghost predicate Deliverable(commit: Commit, id: EventId, now: Time) {
    && Current(commit.state, id)
    && var value := commit.state.outbox[id].current;
       && OfTwoMonths(value.date, now)
       && 0 <= now - commit.at <= commit.freshnessHours * 3600
       && (value.qualifies || (value.ServiceEvaluation? && value.belowThreshold) ==>
             SourceWithin(commit.state.snapshots, value.date, commit.freshnessHours, now))
  }

  // ---------- the checks come down to it ----------

  lemma CurrentIsEligible(state: State, id: EventId)
    ensures Eligible(state, id) == if Current(state, id) then Some(state.outbox[id]) else None
  {
  }

  lemma MonthIsTheOne(m: Month, d: Day)
    requires d >= 1
    ensures MonthStart(m) <= d < MonthStart(m + 1) <==> m == MonthOf(d)
  {
    hide MonthStart, MonthOf;
    if MonthStart(m) <= d < MonthStart(m + 1) {
      MonthOfUnique(d, m);
    }
  }

  lemma WindowIsTwoMonths(now: Time, date: Day)
    requires ClockAccepted(now)
    ensures InWindow(now, date) <==> OfTwoMonths(date, now)
  {
    hide MonthStart, MonthOf;
    var today := DayOf(now);
    forall m: Month ensures MonthStart(m) <= today < MonthStart(m + 1) <==> m == MonthOf(today) {
      MonthIsTheOne(m, today);
    }
  }

  lemma SourceIsWithin(commit: Commit, date: Day, now: Time)
    ensures SourceFresh(commit, date, now) <==> SourceWithin(commit.state.snapshots, date, commit.freshnessHours, now)
  {
    hide MonthStart, MonthOf;
    if date >= 1 {
      forall m: Month ensures MonthStart(m) <= date < MonthStart(m + 1) <==> m == MonthOf(date) {
        MonthIsTheOne(m, date);
      }
    }
  }

  lemma DeliverableIsSendable(commit: Commit, id: EventId, now: Time)
    requires ClockAccepted(now)
    ensures FreshForSend(commit, Eligible(commit.state, id), now) <==> Deliverable(commit, id, now)
  {
    hide InWindow, OfTwoMonths, SourceFresh, SourceWithin, Eligible, ClockAccepted;
    CurrentIsEligible(commit.state, id);
    if Current(commit.state, id) {
      var date := commit.state.outbox[id].current.date;
      WindowIsTwoMonths(now, date);
      SourceIsWithin(commit, date, now);
    }
  }

  // ---------- sends ----------

  /** Every send ever started carries an event that, at the sender's time, could be delivered in the ledger
      it was reserved under. */
  lemma SendsAreDeliverable(actions: seq<Action>, i: nat)
    requires i < |Run(START, actions).sends|
    ensures var s := Run(START, actions).sends[i];
      Deliverable(s.commit, s.event, s.now) && s.payload == Some(s.commit.state.outbox[s.event])
  {
    hide Run, FreshForSend, Eligible, OfTwoMonths, SourceWithin, ClockAccepted;
    SendsCarryEligibleEvents(actions, i);
    var s := Run(START, actions).sends[i];
    DeliverableIsSendable(s.commit, s.event, s.now);
    CurrentIsEligible(s.commit.state, s.event);
  }

  // ---------- dispatch_one before its claim ----------

  /** The call has nothing to do, or may not do it yet. */
  ghost predicate Refuses(doc: Document, job: Job)
    requires Valid(doc)
  {
    if job.event !in doc.journal then
      !Deliverable(doc.commit, job.event, job.now) || |doc.journal| >= 4096
    else
      var entry := doc.journal[job.event];
      || entry.status == Acknowledged
      || (entry.status == RetiredNoSend
          && (doc.commit.sequence <= entry.retiredAt.value || !Deliverable(doc.commit, job.event, job.now)))
      || ((entry.status == Claimed || entry.status == Unknown) && entry.leaseUntil > job.now)
  }

  /** A refused call changes nothing, and says whether the event cannot be delivered, is settled, or is
      another's for now. */
  lemma DispatchRefuses(read: Cell, nextTag: nat, job: Job, s: Surroundings)
    requires JobAccepted(job) && Valid(read.doc)
    ensures var (outcome, after) := Dispatched(Some(read), nextTag, job, s);
      && (outcome == Ineligible <==> job.event !in read.doc.journal && !Deliverable(read.doc.commit, job.event, job.now))
      && (Refuses(read.doc, job) ==>
            && after == Some(read) && !DispatchSends(Some(read), nextTag, job, s)
            && outcome == if job.event !in read.doc.journal then
                            (if Deliverable(read.doc.commit, job.event, job.now) then Failed else Ineligible)
                          else if IsOpen(read.doc.journal[job.event]) then Failed
                          else Returned(read.doc.journal[job.event].status))
  {
    hide Valid, FreshForSend, Eligible, ClockAccepted, Deliverable, Resolved, Sends, ClaimedDocument;
    DeliverableIsSendable(read.doc.commit, job.event, job.now);
    if job.event in read.doc.journal {
      EntryOfValid(read.doc, job);
    }
    ResolvedIsEligible(read, nextTag, job, s);
  }

  lemma ResolvedIsEligible(read: Cell, nextTag: nat, job: Job, s: Surroundings)
    requires JobAccepted(job)
    ensures var claimed := Cell(ClaimedDocument(read.doc, job), nextTag);
      job.event in claimed.doc.journal && Resolved(Some(claimed), nextTag + 1, job, claimed, s).0 != Ineligible
  {
    hide Valid, FreshForSend, Eligible, ClockAccepted;
  }

  /** Any other call claims the event: for its owner, for 120 seconds, with the attempts made so far. */
  lemma DispatchClaims(read: Cell, nextTag: nat, job: Job, s: Surroundings)
    requires JobAccepted(job) && Valid(read.doc) && !Refuses(read.doc, job) && s.claim == LandsUnheard
    ensures Dispatched(Some(read), nextTag, job, s) == (Failed, Some(Cell(read.doc.(journal := read.doc.journal[job.event :=
      JournalEntry(Claimed, job.owner, job.now + 120, if job.event in read.doc.journal then read.doc.journal[job.event].attempts else 0,
                   None, None)]), nextTag)))
  {
    hide Valid, FreshForSend, Eligible, ClockAccepted, Deliverable, Resolved, Sends;
    DeliverableIsSendable(read.doc.commit, job.event, job.now);
    if job.event in read.doc.journal {
      EntryOfValid(read.doc, job);
    }
    MayClaimWrites(read.doc, job);
  }

  /** A call that sends may send: the event is deliverable in the ledger that the claim was made on. */
  lemma DispatchSendsDeliverable(read: Cell, nextTag: nat, job: Job, s: Surroundings)
    requires JobAccepted(job) && DispatchSends(Some(read), nextTag, job, s)
    ensures Deliverable(read.doc.commit, job.event, job.now)
  {
    hide Valid, FreshForSend, Eligible, ClockAccepted, Deliverable;
    DeliverableIsSendable(read.doc.commit, job.event, job.now);
  }

  // ---------- durable documents ----------

  /** What every durable document keeps of its entries. */
  lemma DurableEntriesAre(actions: seq<Action>, e: EventId)
    requires var w := Run(START, actions); w.store.Some? && e in w.store.value.doc.journal
    ensures var doc := Run(START, actions).store.value.doc;
      var entry := doc.journal[e];
      && |doc.journal| <= 4096 && 0 <= entry.attempts <= 100
      && (entry.receipt.Some? <==> entry.status == Acknowledged) && (entry.retiredAt.Some? <==> entry.status == RetiredNoSend)
      && (entry.retiredAt.Some? ==> entry.attempts == 0 && 1 <= entry.retiredAt.value <= doc.commit.sequence)
      && 1 <= doc.commit.sequence <= 9_000_000_000_000_000 && 1 <= doc.commit.freshnessHours <= 36
  {
    hide Run, StateAccepted;
    DurableDocumentsAreValid(actions);
  }
}
