/** Safety of the publish and dispatch protocol over every run. */
module DispatchSafety {
  import opened Common
  import opened Calendar
  import opened LedgerTypes
  import opened LedgerAdmission
  import opened Ledger
  import opened LedgerHistory
  import opened Dispatch

  // ---------- how documents grow ----------

  ghost predicate EntryGrown(a: JournalEntry, b: JournalEntry) {
    && a.attempts <= b.attempts
    && (a.status == Acknowledged ==> b == a)
  }

  /** b may be a later durable document than a: no key is dropped, attempts do not fall, an
      acknowledgement stays as it is, and the same commit sequence means the same ledger. */
  ghost predicate Grown(a: Document, b: Document) {
    && a.commit.sequence <= b.commit.sequence
    && (a.commit.sequence == b.commit.sequence ==> a.commit == b.commit)
    && forall e :: e in a.journal ==> e in b.journal && EntryGrown(a.journal[e], b.journal[e])
  }

  lemma GrownReflexive(doc: Document)
    ensures Grown(doc, doc)
  {
  }

  lemma GrownTransitive(a: Document, b: Document, c: Document)
    requires Grown(a, b) && Grown(b, c)
    ensures Grown(a, c)
  {
  }

  lemma EntryRewritten(doc: Document, job: Job, entry: JournalEntry)
    requires job.event in doc.journal ==> EntryGrown(doc.journal[job.event], entry)
    ensures Grown(doc, WithEntry(doc, job, entry))
  {
  }

  // ---------- the invariant ----------

  /** Every open delivery is for an event that may be delivered in this very ledger state. */
  ghost predicate OpenEligible(doc: Document) {
    forall e :: e in doc.journal && IsOpen(doc.journal[e]) ==> Eligible(doc.commit.state, e).Some?
  }

  ghost predicate ReceiptsKnown(doc: Document, evidence: set<(EventId, string)>) {
    forall e :: e in doc.journal && doc.journal[e].receipt.Some? ==> (e, doc.journal[e].receipt.value) in evidence
  }

  ghost predicate DocumentOk(doc: Document, evidence: set<(EventId, string)>) {
    Valid(doc) && OpenEligible(doc) && ReceiptsKnown(doc, evidence) && Healthy(doc.commit.state)
  }

  /** A cell some worker read earlier, seen from the present store. */
  ghost predicate CellHeld(w: World, cell: Cell) {
    && w.store.Some?
    && cell.tag < w.nextTag
    && (w.store.value.tag == cell.tag ==> w.store.value == cell)
    && Grown(cell.doc, w.store.value.doc)
    && DocumentOk(cell.doc, w.evidence)
  }

  ghost predicate ClaimHeld(w: World, job: Job, claimed: Cell) {
    && CellHeld(w, claimed)
    && job.event in claimed.doc.journal
    && Entry(claimed.doc, job).status == Claimed
  }

  ghost predicate ReceiptKnown(w: World, job: Job, receipt: Option<string>) {
    receipt.Some? ==> (job.event, receipt.value) in w.evidence
  }

  /** A reserved send: its attempt number is covered by the durable counter. */
  ghost predicate ReservationHeld(w: World, job: Job, reserved: Document, claim: nat) {
    && (job.event, claim) in w.absences
    && w.store.Some?
    && Grown(reserved, w.store.value.doc)
    && job.event in reserved.journal
    && 1 <= Entry(reserved, job).attempts
    && Eligible(reserved.commit.state, job.event).Some?
    && JobAccepted(job) && FreshForSend(reserved.commit, Eligible(reserved.commit.state, job.event), job.now)
  }

  ghost predicate RetirementReady(w: World, job: Job, claimed: Cell) {
    ClaimHeld(w, job, claimed) && Valid(RetiredDocument(claimed.doc, job))
  }

  ghost predicate ReservationReady(w: World, job: Job, claimed: Cell) {
    && ClaimHeld(w, job, claimed) && JobAccepted(job) && Valid(ReservedDocument(claimed.doc, job))
    && (job.event, claimed.tag) in w.absences
    && FreshForSend(claimed.doc.commit, Eligible(claimed.doc.commit.state, job.event), job.now)
  }

  ghost predicate PublishReady(w: World, base: Cell, next: Document) {
    && CellHeld(w, base) && !HasOpenEntry(base.doc)
    && next.journal == base.doc.journal
    && next.commit.sequence == base.doc.commit.sequence + 1
  }

  ghost predicate WorkerOk(w: World, worker: Worker) {
    && WellFormed(worker)
    && match worker
       case PublishWrite(base, next) =>
         && Valid(next) && Healthy(next.commit.state)
         && (base.None? ==> next.journal == map[] && next.commit.sequence == 1)
         && (base.Some? ==> PublishReady(w, base.value, next))
       case ClaimWrite(job, read) => CellHeld(w, read) && Decide(read.doc, job) == Claim
       case Looking(job, claimed) => ClaimHeld(w, job, claimed)
       case RetireWrite(job, claimed) => RetirementReady(w, job, claimed)
       case ReserveWrite(job, claimed) => ReservationReady(w, job, claimed)
       case Sending(job, reserved, claim) => ReservationHeld(w, job, reserved, claim)
       case AwaitingSend(job, reserved) => true
       case RecordReading(job, receipt, _) => ReceiptKnown(w, job, receipt)
       case RecordWrite(job, receipt, _, read) =>
         && CellHeld(w, read) && IsOpen(Entry(read.doc, job)) && ReceiptKnown(w, job, receipt)
         && Valid(RecordedDocument(read.doc, job, receipt))
       case _ => true
  }

  ghost predicate SendOk(w: World, s: Send) {
    && (s.event, s.claim) in w.absences
    && w.store.Some?
    && s.event in w.store.value.doc.journal
    && 1 <= s.slot <= w.store.value.doc.journal[s.event].attempts
    && s.payload.Some? && s.payload == Eligible(s.commit.state, s.event)
    && ClockAccepted(s.now) && FreshForSend(s.commit, s.payload, s.now)
    && s.commit.sequence <= w.store.value.doc.commit.sequence
    && (s.commit.sequence == w.store.value.doc.commit.sequence ==> s.commit == w.store.value.doc.commit)
  }

  /** The attempt number a worker is about to use. */
  ghost predicate Holds(worker: Worker, event: EventId, slot: int) {
    && worker.Sending? && worker.job.event == event
    && event in worker.reserved.journal && worker.reserved.journal[event].attempts == slot
  }

  ghost predicate StoreOk(w: World) {
    w.store.Some? ==> w.store.value.tag < w.nextTag && DocumentOk(w.store.value.doc, w.evidence)
  }

  ghost predicate WorkersOk(w: World) {
    forall id :: id in w.workers ==> WorkerOk(w, w.workers[id])
  }

  ghost predicate SendsOk(w: World) {
    && (forall i :: 0 <= i < |w.sends| ==> SendOk(w, w.sends[i]))
    && (forall i, j :: 0 <= i < j < |w.sends| ==>
          w.sends[i].event != w.sends[j].event || w.sends[i].slot != w.sends[j].slot)
  }

  /** No attempt number is used twice: not by a past send and a worker, nor by two workers. */
  ghost predicate SlotsOk(w: World) {
    && (forall id, i :: id in w.workers && 0 <= i < |w.sends| ==> !Holds(w.workers[id], w.sends[i].event, w.sends[i].slot))
    && (forall a, b, event, slot | a in w.workers && b in w.workers ::
          Holds(w.workers[a], event, slot) && Holds(w.workers[b], event, slot) ==> a == b)
  }

  ghost predicate Inv(w: World) {
    StoreOk(w) && WorkersOk(w) && SendsOk(w) && SlotsOk(w)
  }

  lemma StartIsOk()
    ensures Inv(START)
  {
  }

  // ---------- what a step leaves alone ----------

  ghost predicate Kept(w: World, v: World) {
    v.store == w.store && v.nextTag == w.nextTag
  }

  ghost predicate Replaced(w: World, v: World) {
    && v.nextTag == w.nextTag + 1 && v.store.Some? && v.store.value.tag == w.nextTag
    && (w.store.Some? ==> Grown(w.store.value.doc, v.store.value.doc))
  }

  /** The store stays, or takes one grown document under a new tag; evidence only accumulates. */
  ghost predicate Advanced(w: World, v: World) {
    && w.evidence <= v.evidence && w.absences <= v.absences
    && (Kept(w, v) || Replaced(w, v))
  }

  lemma DocumentStays(doc: Document, before: set<(EventId, string)>, after: set<(EventId, string)>)
    requires DocumentOk(doc, before) && before <= after
    ensures DocumentOk(doc, after)
  {
    hide Valid, Healthy, Eligible;
  }

  lemma CellStays(w: World, v: World, cell: Cell)
    requires Advanced(w, v) && CellHeld(w, cell) && StoreOk(w)
    ensures CellHeld(v, cell)
  {
    hide DocumentOk, EntryGrown;
    DocumentStays(cell.doc, w.evidence, v.evidence);
    if v.store != w.store {
      GrownTransitive(cell.doc, w.store.value.doc, v.store.value.doc);
    }
  }

  lemma WorkerStays(w: World, v: World, worker: Worker)
    requires Advanced(w, v) && WorkerOk(w, worker) && StoreOk(w)
    ensures WorkerOk(v, worker)
  {
    hide CellHeld, Grown, Valid, Decide, FreshForSend, Healthy, Eligible;
    match worker
    case PublishWrite(base, _) => if base.Some? { CellStays(w, v, base.value); }
    case ClaimWrite(_, read) => CellStays(w, v, read);
    case Looking(_, claimed) => CellStays(w, v, claimed);
    case RetireWrite(_, claimed) => CellStays(w, v, claimed);
    case ReserveWrite(_, claimed) => CellStays(w, v, claimed);
    case Sending(job, reserved, _) =>
      if v.store != w.store { GrownTransitive(reserved, w.store.value.doc, v.store.value.doc); }
    case RecordWrite(_, _, _, read) => CellStays(w, v, read);
    case _ =>
  }

  lemma SendStays(w: World, v: World, s: Send)
    requires Advanced(w, v) && SendOk(w, s)
    ensures SendOk(v, s)
  {
    hide FreshForSend, Eligible;
  }

  lemma SendsStay(w: World, v: World)
    requires Advanced(w, v) && SendsOk(w) && v.sends == w.sends
    ensures SendsOk(v)
  {
    hide SendOk, Advanced;
    forall i | 0 <= i < |v.sends| ensures SendOk(v, v.sends[i]) {
      SendStays(w, v, w.sends[i]);
    }
  }

  lemma WorkersStay(w: World, v: World, id: nat, worker: Worker)
    requires Advanced(w, v) && WorkersOk(w) && StoreOk(w) && v.workers == w.workers[id := worker] && WorkerOk(v, worker)
    ensures WorkersOk(v)
  {
    hide WorkerOk, Advanced, StoreOk;
    forall k | k in v.workers ensures WorkerOk(v, v.workers[k]) {
      if k != id { WorkerStays(w, v, w.workers[k]); }
    }
  }

  /** What no step ever takes back. */
  ghost predicate Later(w: World, v: World) {
    && w.evidence <= v.evidence && w.absences <= v.absences
    && w.sends <= v.sends
    && (w.store.Some? ==> v.store.Some? && Grown(w.store.value.doc, v.store.value.doc))
  }

  /** While a delivery is open the ledger part of the document stays as it is. */
  ghost predicate FrozenIfOpen(w: World, v: World) {
    w.store.Some? && HasOpenEntry(w.store.value.doc) ==>
      v.store.Some? && v.store.value.doc.commit == w.store.value.doc.commit
  }

  ghost predicate StepOk(w: World, v: World) {
    Inv(v) && Later(w, v) && FrozenIfOpen(w, v)
  }

  lemma NothingHappened(w: World)
    requires Inv(w)
    ensures StepOk(w, w)
  {
    hide Inv, HasOpenEntry;
    if w.store.Some? { GrownReflexive(w.store.value.doc); }
  }

  lemma AdvancedIsLater(w: World, v: World)
    requires Advanced(w, v) && w.sends <= v.sends
    ensures Later(w, v)
  {
    if w.store.Some? { GrownReflexive(w.store.value.doc); }
  }

  /** A step that starts no send and reserves none. */
  lemma QuietStep(w: World, v: World, id: nat, worker: Worker)
    requires Inv(w) && Advanced(w, v) && StoreOk(v)
    requires v.workers == w.workers[id := worker] && v.sends == w.sends
    requires WorkerOk(v, worker) && !worker.Sending?
    requires FrozenIfOpen(w, v)
    ensures StepOk(w, v)
  {
    hide WorkerOk, Advanced, StoreOk, SendOk, FrozenIfOpen;
    WorkersStay(w, v, id, worker);
    SendsStay(w, v);
    AdvancedIsLater(w, v);
  }

  // ---------- writes ----------

  lemma StoreStays(w: World, v: World)
    requires StoreOk(w) && v.store == w.store && v.nextTag == w.nextTag && w.evidence <= v.evidence
    ensures StoreOk(v)
  {
    hide DocumentOk;
    if w.store.Some? { DocumentStays(w.store.value.doc, w.evidence, v.evidence); }
  }

  /** A compare-and-swap keeps the invariant if the document it may write is a grown, sound one. */
  lemma WriteStep(w: World, id: nat, expected: Option<nat>, doc: Document, answer: Answer, written: Worker,
                  refused: Worker)
    requires Inv(w)
    requires TagMatches(w, expected) ==> DocumentOk(doc, w.evidence)
    requires TagMatches(w, expected) && w.store.Some? ==>
      && Grown(w.store.value.doc, doc)
      && (HasOpenEntry(w.store.value.doc) ==> doc.commit == w.store.value.doc.commit)
    requires TagMatches(w, expected) && answer == Wrote ==>
      WorkerOk(Put(Installed(w, doc), id, written), written) && !written.Sending?
    requires WorkerOk(Put(w, id, refused), refused) && !refused.Sending?
    ensures StepOk(w, CompareAndSwap(w, id, expected, doc, answer, written, refused))
  {
    hide WorkersOk, SendsOk, SlotsOk, DocumentOk, Grown, HasOpenEntry, StepOk;
    NothingHappened(w);
    match answer
    case Wrote =>
      if TagMatches(w, expected) {
        QuietStep(w, Put(Installed(w, doc), id, written), id, written);
      }
    case WroteUnanswered =>
      if TagMatches(w, expected) {
        QuietStep(w, Put(Installed(w, doc), id, Done), id, Done);
      }
    case Refused =>
      StoreStays(w, Put(w, id, refused));
      QuietStep(w, Put(w, id, refused), id, refused);
    case _ =>
  }

  lemma HeldIsCurrent(w: World, cell: Cell)
    requires CellHeld(w, cell) && TagMatches(w, Some(cell.tag))
    ensures w.store == Some(cell)
  {
  }

  lemma ClaimIsSound(doc: Document, job: Job, evidence: set<(EventId, string)>)
    requires DocumentOk(doc, evidence) && JobAccepted(job) && Decide(doc, job) == Claim
    ensures Eligible(doc.commit.state, job.event).Some?
    ensures DocumentOk(ClaimedDocument(doc, job), evidence) && Grown(doc, ClaimedDocument(doc, job))
  {
    hide Healthy, Eligible, InWindow, SourceFresh, StateAccepted;
  }

  lemma RewriteIsSound(doc: Document, job: Job, entry: JournalEntry, evidence: set<(EventId, string)>)
    requires DocumentOk(doc, evidence) && job.event in doc.journal
    requires EntryGrown(doc.journal[job.event], entry) && Valid(WithEntry(doc, job, entry))
    requires IsOpen(entry) ==> IsOpen(doc.journal[job.event])
    requires entry.receipt.Some? ==> (job.event, entry.receipt.value) in evidence
    ensures DocumentOk(WithEntry(doc, job, entry), evidence) && Grown(doc, WithEntry(doc, job, entry))
  {
    hide Valid, Healthy, Eligible, EntryGrown;
    EntryRewritten(doc, job, entry);
  }

  // ---------- the steps, one by one ----------

  lemma CurrentIsHeld(w: World)
    requires StoreOk(w) && w.store.Some?
    ensures CellHeld(w, w.store.value)
  {
    hide DocumentOk;
  }

  lemma HeldAfterPut(w: World, cell: Cell, id: nat, worker: Worker)
    requires CellHeld(w, cell)
    ensures CellHeld(Put(w, id, worker), cell)
  {
    hide DocumentOk, Grown;
  }

  lemma PublishedIsSound(base: Option<Cell>, manifest: Manifest, policy: Policy, now: Time)
    requires base.Some? ==> Healthy(base.value.doc.commit.state)
    requires PublishedDocument(base, manifest, policy, now).Some?
    ensures Healthy(PublishedDocument(base, manifest, policy, now).value.commit.state)
  {
    hide Healthy, StateAfter, Accepts;
    if base.Some? {
      EvaluateKeepsHealthy(manifest, policy, now, base.value.doc.commit.state);
    } else {
      EmptyIsHealthy();
      EvaluateKeepsHealthy(manifest, policy, now, EMPTY_STATE);
    }
  }

  /** A step that only changes the worker that takes it. */
  lemma LocalStep(w: World, id: nat, worker: Worker)
    requires Inv(w) && WorkerOk(Put(w, id, worker), worker) && !worker.Sending?
    ensures StepOk(w, Put(w, id, worker))
  {
    hide WorkerOk, WorkersOk, SendsOk, SlotsOk, DocumentOk, HasOpenEntry;
    StoreStays(w, Put(w, id, worker));
    QuietStep(w, Put(w, id, worker), id, worker);
  }

  lemma PublishReadStep(w: World, id: nat, worker: Worker)
    requires Inv(w) && worker.Publishing?
    ensures StepOk(w, Put(w, id, PublishRead(w, worker)))
  {
    hide Evaluate, Valid, WorkersOk, SendsOk, SlotsOk, Grown, Healthy, OpenEligible, ReceiptsKnown, HasOpenEntry;
    var next := PublishRead(w, worker);
    if next.PublishWrite? {
      if w.store.Some? {
        CurrentIsHeld(w);
        HeldAfterPut(w, w.store.value, id, next);
      }
      PublishedIsSound(w.store, worker.manifest, worker.policy, worker.now);
    }
    LocalStep(w, id, next);
  }

  lemma PublishedDocumentOk(base: Cell, next: Document, evidence: set<(EventId, string)>)
    requires DocumentOk(base.doc, evidence) && !HasOpenEntry(base.doc)
    requires Valid(next) && Healthy(next.commit.state) && next.journal == base.doc.journal
    requires next.commit.sequence == base.doc.commit.sequence + 1
    ensures DocumentOk(next, evidence) && Grown(base.doc, next)
  {
    hide Healthy, Valid;
  }

  lemma PublishWriteStep(w: World, id: nat, base: Option<Cell>, next: Document, answer: Answer)
    requires Inv(w) && WorkerOk(w, PublishWrite(base, next))
    ensures StepOk(w, CompareAndSwap(w, id, if base.Some? then Some(base.value.tag) else None, next, answer, Done, Done))
  {
    hide WorkersOk, SendsOk, SlotsOk, Valid, Grown, Healthy, HasOpenEntry, CompareAndSwap;
    var expected := if base.Some? then Some(base.value.tag) else None;
    if TagMatches(w, expected) && base.Some? {
      HeldIsCurrent(w, base.value);
      PublishedDocumentOk(base.value, next, w.evidence);
    }
    WriteStep(w, id, expected, next, answer, Done, Done);
  }

  lemma DispatchReadStep(w: World, id: nat, job: Job)
    requires Inv(w) && JobAccepted(job)
    ensures StepOk(w, Put(w, id, DispatchRead(w, job)))
  {
    hide Decide, Valid, WorkersOk, SendsOk, SlotsOk, DocumentOk, Grown, ClockAccepted;
    var next := DispatchRead(w, job);
    if next.ClaimWrite? {
      CurrentIsHeld(w);
      HeldAfterPut(w, w.store.value, id, next);
    }
    LocalStep(w, id, next);
  }

  lemma ClaimWriteStep(w: World, id: nat, job: Job, read: Cell, answer: Answer)
    requires Inv(w) && WorkerOk(w, ClaimWrite(job, read))
    ensures var doc := ClaimedDocument(read.doc, job);
      StepOk(w, CompareAndSwap(w, id, Some(read.tag), doc, answer, Looking(job, Cell(doc, w.nextTag)), Done))
  {
    hide WorkersOk, SendsOk, SlotsOk, Decide, DocumentOk, CompareAndSwap, ClockAccepted, Grown;
    var doc := ClaimedDocument(read.doc, job);
    var claimed := Cell(doc, w.nextTag);
    if TagMatches(w, Some(read.tag)) {
      HeldIsCurrent(w, read);
      ClaimIsSound(read.doc, job, w.evidence);
      NewCellIsHeld(w, doc, id, Looking(job, claimed));
    }
    WriteStep(w, id, Some(read.tag), doc, answer, Looking(job, claimed), Done);
  }

  lemma NewCellIsHeld(w: World, doc: Document, id: nat, worker: Worker)
    requires DocumentOk(doc, w.evidence)
    ensures CellHeld(Put(Installed(w, doc), id, worker), Cell(doc, w.nextTag))
  {
    hide DocumentOk, Grown;
    GrownReflexive(doc);
  }

  lemma LookupStep(w: World, id: nat, job: Job, claimed: Cell, evidence: Evidence)
    requires Inv(w) && WorkerOk(w, Looking(job, claimed))
    ensures StepOk(w, Put(NotedUnder(w, job.event, claimed.tag, evidence), id, AfterLookup(job, claimed, evidence)))
  {
    hide WorkersOk, SendsOk, SlotsOk, DocumentOk, Grown, Valid, FreshForSend, ClockAccepted, Eligible,
      CellHeld, StoreOk;
    var next := AfterLookup(job, claimed, evidence);
    var v := Put(NotedUnder(w, job.event, claimed.tag, evidence), id, next);
    EvidenceStep(w, v);
    assert WorkerOk(w, Looking(job, claimed));
    CellStays(w, v, claimed);
    QuietStep(w, v, id, next);
  }

  /** Steps that only add evidence and change one worker. */
  lemma EvidenceStep(w: World, v: World)
    requires StoreOk(w) && v.store == w.store && v.nextTag == w.nextTag && w.evidence <= v.evidence
    requires w.absences <= v.absences
    ensures Advanced(w, v) && StoreOk(v)
  {
    hide DocumentOk;
    StoreStays(w, v);
  }

  lemma RetireWriteStep(w: World, id: nat, job: Job, claimed: Cell, answer: Answer)
    requires Inv(w) && WorkerOk(w, RetireWrite(job, claimed))
    ensures StepOk(w, CompareAndSwap(w, id, Some(claimed.tag), RetiredDocument(claimed.doc, job), answer, Done, Done))
  {
    hide WorkersOk, SendsOk, SlotsOk, CompareAndSwap, ClockAccepted, Grown, Valid, OpenEligible, ReceiptsKnown, Healthy;
    if TagMatches(w, Some(claimed.tag)) {
      HeldIsCurrent(w, claimed);
      EntryOfValid(claimed.doc, job);
      RewriteIsSound(claimed.doc, job, RetiredDocument(claimed.doc, job).journal[job.event], w.evidence);
    }
    WriteStep(w, id, Some(claimed.tag), RetiredDocument(claimed.doc, job), answer, Done, Done);
  }

  lemma EntryOfValid(doc: Document, job: Job)
    requires Valid(doc) && job.event in doc.journal
    ensures EntryValid(Entry(doc, job), doc.commit.sequence)
  {
  }

  lemma RecordReadStep(w: World, id: nat, worker: Worker)
    requires Inv(w) && worker.RecordReading? && WorkerOk(w, worker)
    ensures StepOk(w, Put(w, id, RecordRead(w, worker)))
  {
    hide Valid, WorkersOk, SendsOk, SlotsOk, DocumentOk, Grown;
    var next := RecordRead(w, worker);
    if next.RecordWrite? {
      CurrentIsHeld(w);
      HeldAfterPut(w, w.store.value, id, next);
    }
    LocalStep(w, id, next);
  }

  lemma RecordWriteStep(w: World, id: nat, worker: Worker, answer: Answer)
    requires Inv(w) && worker.RecordWrite? && WorkerOk(w, worker)
    ensures StepOk(w, Stepped(w, id, worker, answer))
  {
    hide WorkersOk, SendsOk, SlotsOk, CompareAndSwap, Grown, Valid, OpenEligible, ReceiptsKnown, Healthy;
    var job, read, receipt := worker.job, worker.read, worker.receipt;
    var refused := if worker.tries + 1 < MAX_CAS_RETRIES then RecordReading(job, receipt, worker.tries + 1) else Done;
    if TagMatches(w, Some(read.tag)) {
      HeldIsCurrent(w, read);
      EntryOfValid(read.doc, job);
      RewriteIsSound(read.doc, job, RecordedDocument(read.doc, job, receipt).journal[job.event], w.evidence);
    }
    WriteStep(w, id, Some(read.tag), RecordedDocument(read.doc, job, receipt), answer, Done, refused);
  }

  // ---------- reserving and starting a send ----------

  lemma ReserveWriteStep(w: World, id: nat, job: Job, claimed: Cell, answer: Answer)
    requires Inv(w) && WorkerOk(w, ReserveWrite(job, claimed))
    ensures var doc := ReservedDocument(claimed.doc, job);
      StepOk(w, CompareAndSwap(w, id, Some(claimed.tag), doc, answer, Sending(job, doc, claimed.tag), Done))
  {
    hide WorkersOk, SendsOk, SlotsOk, ClockAccepted, Grown, Valid, ReceiptsKnown, Healthy, FreshForSend, Eligible;
    var doc := ReservedDocument(claimed.doc, job);
    if TagMatches(w, Some(claimed.tag)) && (answer == Wrote || answer == WroteUnanswered) {
      HeldIsCurrent(w, claimed);
      EntryOfValid(claimed.doc, job);
      RewriteIsSound(claimed.doc, job, doc.journal[job.event], w.evidence);
      if answer == Wrote {
        GrownReflexive(doc);
        Reserving(w, id, job, claimed);
      } else {
        QuietStep(w, Put(Installed(w, doc), id, Done), id, Done);
      }
    } else if answer == Refused {
      LocalStep(w, id, Done);
    } else {
      NothingHappened(w);
    }
  }

  lemma Reserving(w: World, id: nat, job: Job, claimed: Cell)
    requires Inv(w) && w.store == Some(claimed) && JobAccepted(job) && job.event in claimed.doc.journal
    requires (job.event, claimed.tag) in w.absences
    requires var doc := ReservedDocument(claimed.doc, job);
      && DocumentOk(doc, w.evidence) && Grown(claimed.doc, doc) && 1 <= Entry(doc, job).attempts
      && Eligible(doc.commit.state, job.event).Some?
      && FreshForSend(doc.commit, Eligible(doc.commit.state, job.event), job.now)
    ensures var doc := ReservedDocument(claimed.doc, job);
      StepOk(w, Put(Installed(w, doc), id, Sending(job, doc, claimed.tag)))
  {
    hide WorkersOk, SendsOk, ClockAccepted, Grown, DocumentOk, FreshForSend, Eligible, Holds;
    var doc := ReservedDocument(claimed.doc, job);
    var v := Put(Installed(w, doc), id, Sending(job, doc, claimed.tag));
    GrownReflexive(doc);
    assert Advanced(w, v);
    WorkersStay(w, v, id, Sending(job, doc, claimed.tag));
    SendsStay(w, v);
    NewSlotIsUnused(w, job, claimed);
    NewHolds(job, doc, claimed.tag);
    assert SlotsOk(v);
  }

  lemma NewHolds(job: Job, doc: Document, claim: nat)
    requires job.event in doc.journal
    ensures forall event, slot :: Holds(Sending(job, doc, claim), event, slot) <==>
      event == job.event && slot == Entry(doc, job).attempts
  {
  }

  /** The attempt number just reserved exceeds every number used or held before. */
  lemma NewSlotIsUnused(w: World, job: Job, claimed: Cell)
    requires Inv(w) && w.store == Some(claimed) && job.event in claimed.doc.journal
    ensures var slot := Entry(claimed.doc, job).attempts + 1;
      && (forall i :: 0 <= i < |w.sends| ==> w.sends[i].event != job.event || w.sends[i].slot != slot)
      && (forall k :: k in w.workers ==> !Holds(w.workers[k], job.event, slot))
  {
    hide SlotsOk, StoreOk, FreshForSend, Eligible, Healthy, Valid;
    forall k | k in w.workers ensures !Holds(w.workers[k], job.event, Entry(claimed.doc, job).attempts + 1) {
      assert WorkerOk(w, w.workers[k]);
    }
  }

  lemma SendStep(w: World, id: nat, job: Job, reserved: Document, claim: nat)
    requires Inv(w) && id in w.workers && w.workers[id] == Sending(job, reserved, claim)
    ensures StepOk(w, Stepped(w, id, Sending(job, reserved, claim), Proceed))
  {
    hide StoreOk, FreshForSend, Eligible, Healthy, Valid, ClockAccepted, CellHeld, Decide;
    var send := Send(job.event, Entry(reserved, job).attempts, Eligible(reserved.commit.state, job.event), reserved.commit, job.now, claim);
    var quiet := Put(w, id, AwaitingSend(job, reserved));
    assert WorkerOk(w, w.workers[id]);
    assert Holds(w.workers[id], send.event, send.slot);
    LocalStep(w, id, AwaitingSend(job, reserved));
    assert SendOk(quiet, send);
    SendRecorded(quiet, send);
  }

  lemma SendRecorded(w: World, send: Send)
    requires Inv(w) && SendOk(w, send)
    requires forall i :: 0 <= i < |w.sends| ==> w.sends[i].event != send.event || w.sends[i].slot != send.slot
    requires forall k :: k in w.workers ==> !Holds(w.workers[k], send.event, send.slot)
    ensures StepOk(w, w.(sends := w.sends + [send]))
  {
    hide WorkerOk, StoreOk, Holds, SendOk;
    var v := w.(sends := w.sends + [send]);
    SameStoreSameChecks(w, v);
    assert forall i :: 0 <= i < |w.sends| ==> v.sends[i] == w.sends[i];
  }

  lemma SameStoreSameChecks(w: World, v: World)
    requires v == w.(sends := v.sends)
    ensures StoreOk(w) ==> StoreOk(v)
    ensures forall worker :: WorkerOk(w, worker) ==> WorkerOk(v, worker)
    ensures forall s :: SendOk(w, s) ==> SendOk(v, s)
  {
    hide FreshForSend, Eligible, Healthy, Valid, DocumentOk, Grown, Decide;
  }

  // ---------- every action, every run ----------

  lemma StepIsSound(w: World, id: nat, answer: Answer)
    requires Inv(w) && id in w.workers
    ensures StepOk(w, Apply(w, Step(id, answer)))
  {
    hide Inv, StepOk, CompareAndSwap, PublishRead, DispatchRead, AfterLookup, RecordRead, Decide, ClockAccepted,
      CellHeld, ClaimHeld, ReservationHeld, Valid, FreshForSend, Healthy;
    var worker := w.workers[id];
    WorkerAt(w, id);
    NothingHappened(w);
    match worker
    case Publishing(_, _, _) => PublishReadStep(w, id, worker);
    case PublishWrite(base, next) => PublishWriteStep(w, id, base, next, answer);
    case Dispatching(job) => DispatchReadStep(w, id, job);
    case ClaimWrite(job, read) => ClaimWriteStep(w, id, job, read, answer);
    case Looking(job, claimed) => if answer.Found? { LookupStep(w, id, job, claimed, answer.evidence); }
    case RetireWrite(job, claimed) => RetireWriteStep(w, id, job, claimed, answer);
    case ReserveWrite(job, claimed) => ReserveWriteStep(w, id, job, claimed, answer);
    case Sending(job, reserved, claim) => if answer.Proceed? { SendStep(w, id, job, reserved, claim); }
    case AwaitingSend(job, reserved) =>
      LocalStep(w, id, RecordLooking(job));
      LocalStep(w, id, RecordReading(job, None, 0));
    case RecordLooking(job) => if answer.Found? { RecordLookupStep(w, id, job, answer.evidence); }
    case RecordReading(_, _, _) => RecordReadStep(w, id, worker);
    case RecordWrite(_, _, _, _) => RecordWriteStep(w, id, worker, answer);
    case Done =>
  }

  lemma WorkerAt(w: World, id: nat)
    requires Inv(w) && id in w.workers
    ensures WorkerOk(w, w.workers[id]) && WellFormed(w.workers[id])
  {
    hide StoreOk, SendsOk, SlotsOk, CellHeld, ClaimHeld, ReservationHeld, Valid, FreshForSend, Healthy, Decide;
  }

  lemma RecordLookupStep(w: World, id: nat, job: Job, evidence: Evidence)
    requires Inv(w)
    ensures var receipt := if evidence.AcknowledgedBy? then Some(evidence.receipt) else None;
      StepOk(w, Put(Noted(w, job.event, evidence), id, RecordReading(job, receipt, 0)))
  {
    hide WorkersOk, SendsOk, SlotsOk, StoreOk, HasOpenEntry;
    var receipt := if evidence.AcknowledgedBy? then Some(evidence.receipt) else None;
    var next := RecordReading(job, receipt, 0);
    var v := Put(Noted(w, job.event, evidence), id, next);
    EvidenceStep(w, v);
    QuietStep(w, v, id, next);
  }

  lemma RereadIsSound(w: World, id: nat)
    requires Inv(w) && id in w.workers
    ensures StepOk(w, RereadStep(w, id))
  {
    hide WorkersOk, SendsOk, SlotsOk, StepOk, Valid, Healthy, Grown;
    NothingHappened(w);
    match w.workers[id]
    case Looking(job, claimed) =>
      if w.store.Some? && w.store.value.doc == claimed.doc {
        WorkerAt(w, id);
        CurrentIsHeld(w);
        HeldAfterPut(w, w.store.value, id, Looking(job, w.store.value));
        LocalStep(w, id, Looking(job, w.store.value));
      }
    case _ =>
  }

  lemma ApplyIsSound(w: World, a: Action)
    requires Inv(w)
    ensures StepOk(w, Apply(w, a))
  {
    hide Inv, StepOk, Stepped, RereadStep, ClockAccepted;
    NothingHappened(w);
    match a
    case BeginPublish(id, manifest, policy, now) => LocalStep(w, id, Publishing(manifest, policy, now));
    case BeginDispatch(id, job) => if JobAccepted(job) { LocalStep(w, id, Dispatching(job)); }
    case Crash(id) => LocalStep(w, id, Done);
    case Reread(id) => if id in w.workers { RereadIsSound(w, id); }
    case Step(id, answer) => if id in w.workers { StepIsSound(w, id, answer); }
  }

  lemma LaterTransitive(u: World, v: World, w: World)
    requires Later(u, v) && Later(v, w)
    ensures Later(u, w)
  {
    if u.store.Some? {
      GrownTransitive(u.store.value.doc, v.store.value.doc, w.store.value.doc);
    }
  }

  /** From any sound world, every run stays sound and takes nothing back. */
  lemma {:induction false} RunIsSound(w: World, actions: seq<Action>)
    requires Inv(w)
    ensures Inv(Run(w, actions)) && Later(w, Run(w, actions))
    decreases |actions|
  {
    hide Inv, Apply, Later, FrozenIfOpen;
    if actions == [] {
      NothingHappened(w);
    } else {
      var before := Run(w, actions[..|actions| - 1]);
      RunIsSound(w, actions[..|actions| - 1]);
      ApplyIsSound(before, actions[|actions| - 1]);
      LaterTransitive(w, before, Run(w, actions));
    }
  }

  /** The worlds that start from an empty store. */
  lemma ReachableIsSound(actions: seq<Action>)
    ensures Inv(Run(START, actions))
  {
    StartIsOk();
    RunIsSound(START, actions);
  }

  lemma {:induction false} RunContinues(w: World, first: seq<Action>, then_: seq<Action>)
    ensures Run(w, first + then_) == Run(Run(w, first), then_)
    decreases |then_|
  {
    hide Apply;
    if then_ == [] {
      assert first + then_ == first;
    } else {
      RunContinues(w, first, then_[..|then_| - 1]);
      assert (first + then_)[..|first + then_| - 1] == first + then_[..|then_| - 1];
    }
  }

  // ---------- sends never exceed attempts ----------

  function SendCount(sends: seq<Send>, event: EventId): nat {
    if sends == [] then 0
    else SendCount(sends[..|sends| - 1], event) + if sends[|sends| - 1].event == event then 1 else 0
  }

  /** The durable attempts counter of an event; 0 while it has no journal entry. */
  function Attempts(w: World, event: EventId): int {
    if w.store.Some? && event in w.store.value.doc.journal then w.store.value.doc.journal[event].attempts else 0
  }

  ghost function SlotsUsed(sends: seq<Send>, event: EventId): set<int> {
    if sends == [] then {}
    else SlotsUsed(sends[..|sends| - 1], event)
         + if sends[|sends| - 1].event == event then {sends[|sends| - 1].slot} else {}
  }

  lemma {:induction false} SlotsCountSends(sends: seq<Send>, event: EventId)
    requires forall i, j :: 0 <= i < j < |sends| ==> sends[i].event != sends[j].event || sends[i].slot != sends[j].slot
    ensures |SlotsUsed(sends, event)| == SendCount(sends, event)
    ensures forall slot :: slot in SlotsUsed(sends, event) ==>
      exists i :: 0 <= i < |sends| && sends[i].event == event && sends[i].slot == slot
  {
    if sends != [] {
      var init := sends[..|sends| - 1];
      SlotsCountSends(init, event);
      assert forall i :: 0 <= i < |init| ==> init[i] == sends[i];
    }
  }

  lemma {:induction false} BoundedSet(slots: set<int>, n: nat)
    requires forall slot :: slot in slots ==> 1 <= slot <= n
    ensures |slots| <= n
  {
    if n == 0 {
      assert forall slot :: slot !in slots;
      assert slots == {};
    } else {
      BoundedSet(slots - {n}, n - 1);
    }
  }

  lemma SendsWithinAttempts(w: World, event: EventId)
    requires Inv(w)
    ensures SendCount(w.sends, event) <= Attempts(w, event) <= MAX_ATTEMPTS
  {
    hide StoreOk, WorkersOk, SlotsOk, FreshForSend, Eligible;
    AttemptsBounded(w, event);
    SlotsCountSends(w.sends, event);
    forall slot | slot in SlotsUsed(w.sends, event) ensures 1 <= slot <= Attempts(w, event) {
      var i :| 0 <= i < |w.sends| && w.sends[i].event == event && w.sends[i].slot == slot;
      assert SendOk(w, w.sends[i]);
    }
    BoundedSet(SlotsUsed(w.sends, event), Attempts(w, event));
  }

  lemma AttemptsBounded(w: World, event: EventId)
    requires Inv(w)
    ensures 0 <= Attempts(w, event) <= MAX_ATTEMPTS
  {
    hide WorkersOk, SlotsOk, SendsOk, StateAccepted, OpenEligible, ReceiptsKnown, Healthy;
    if w.store.Some? && event in w.store.value.doc.journal {
      EntryOfValid(w.store.value.doc, Job(event, "", 0));
    }
  }

  /** In every interleaving, with crashes, lost answers and takeovers, the sends ever started
      for an event never exceed its durable attempts, which never exceed 100. */
  lemma SendsNeverExceedAttempts(actions: seq<Action>, event: EventId)
    ensures var w := Run(START, actions);
      SendCount(w.sends, event) <= Attempts(w, event) <= MAX_ATTEMPTS
  {
    ReachableIsSound(actions);
    SendsWithinAttempts(Run(START, actions), event);
  }

  lemma AttemptsNeverDecrease(actions: seq<Action>, more: seq<Action>, event: EventId)
    ensures Attempts(Run(START, actions), event) <= Attempts(Run(START, actions + more), event)
  {
    hide Inv, Apply;
    ReachableIsSound(actions);
    RunContinues(START, actions, more);
    RunIsSound(Run(START, actions), more);
    AttemptsBounded(Run(Run(START, actions), more), event);
  }

  /** A retired entry proves that no send was ever started and that none has been reserved:
      no worker is about to send. */
  lemma RetiredMeansNeverSent(actions: seq<Action>, event: EventId)
    requires var w := Run(START, actions);
      w.store.Some? && event in w.store.value.doc.journal && w.store.value.doc.journal[event].status == RetiredNoSend
    ensures var w := Run(START, actions);
      && SendCount(w.sends, event) == 0
      && forall id :: id in w.workers && w.workers[id].Sending? ==> w.workers[id].job.event != event
  {
    hide Run;
    var w := Run(START, actions);
    ReachableIsSound(actions);
    SendsWithinAttempts(w, event);
    RetiredHasNoAttempts(w, event);
    forall id | id in w.workers && w.workers[id].Sending? ensures w.workers[id].job.event != event {
      WorkerAt(w, id);
      ReservedCounts(w, w.workers[id]);
    }
  }

  lemma RetiredHasNoAttempts(w: World, event: EventId)
    requires StoreOk(w) && w.store.Some? && event in w.store.value.doc.journal
    requires w.store.value.doc.journal[event].status == RetiredNoSend
    ensures Attempts(w, event) == 0
  {
    hide StateAccepted, OpenEligible, ReceiptsKnown, Healthy;
    EntryOfValid(w.store.value.doc, Job(event, "", 0));
  }

  lemma ReservedCounts(w: World, worker: Worker)
    requires worker.Sending? && WorkerOk(w, worker)
    ensures Attempts(w, worker.job.event) >= 1
  {
    hide FreshForSend, Eligible;
  }

  /** While an entry is retired, no step of any worker turns it into a send: the tag under which
      an older worker would reserve one is gone. */
  lemma RetirementFencesOlderWorkers(w: World, id: nat, answer: Answer, event: EventId)
    requires Inv(w) && w.store.Some? && event in w.store.value.doc.journal
    requires w.store.value.doc.journal[event].status == RetiredNoSend
    ensures var v := Apply(w, Step(id, answer));
      && SendCount(v.sends, event) == 0
      && (id in v.workers && v.workers[id].Sending? ==> v.workers[id].job.event != event)
  {
    hide Stepped, Inv, Later, FrozenIfOpen;
    var v := Apply(w, Step(id, answer));
    ApplyIsSound(w, Step(id, answer));
    RetiredStaysUnreserved(w, id, answer, event);
    SendsWithinAttempts(v, event);
    if id in v.workers && v.workers[id].Sending? {
      WorkerAt(v, id);
      ReservedCounts(v, v.workers[id]);
    }
  }

  lemma RetiredStaysUnreserved(w: World, id: nat, answer: Answer, event: EventId)
    requires Inv(w) && w.store.Some? && event in w.store.value.doc.journal
    requires w.store.value.doc.journal[event].status == RetiredNoSend
    ensures Attempts(Apply(w, Step(id, answer)), event) == 0
  {
    hide SendsOk, SlotsOk, Grown, Valid, FreshForSend, Eligible, Decide, Healthy, ClockAccepted, Evaluate, HasOpenEntry,
      PublishRead, DispatchRead, AfterLookup, RecordRead;
    RetiredHasNoAttempts(w, event);
    if id in w.workers {
      WorkerAt(w, id);
    }
  }

  // ---------- the ledger under open deliveries ----------

  /** Every open entry of every reachable document is for an eligible event. */
  lemma OpenEntriesAreEligible(actions: seq<Action>, event: EventId)
    requires var w := Run(START, actions);
      w.store.Some? && event in w.store.value.doc.journal && IsOpen(w.store.value.doc.journal[event])
    ensures Eligible(Run(START, actions).store.value.doc.commit.state, event).Some?
  {
    hide Run, Eligible, WorkersOk, SendsOk, SlotsOk, Valid, Healthy;
    ReachableIsSound(actions);
  }

  ghost predicate OpenIn(w: World, event: EventId) {
    w.store.Some? && event in w.store.value.doc.journal && IsOpen(w.store.value.doc.journal[event])
  }

  /** From the claim until the entry is acknowledged or retired no publish succeeds: the ledger
      state, its time and its commit sequence stay exactly as they were. */
  lemma {:induction false} LedgerFrozenWhileOpen(w: World, actions: seq<Action>, event: EventId)
    requires Inv(w)
    requires forall k :: 0 <= k <= |actions| ==> OpenIn(Run(w, actions[..k]), event)
    ensures OpenIn(w, event) && OpenIn(Run(w, actions), event)
    ensures Run(w, actions).store.value.doc.commit == w.store.value.doc.commit
    decreases |actions|
  {
    hide Inv, Apply;
    assert actions[..0] == [] && actions[..|actions|] == actions;
    assert OpenIn(Run(w, actions[..0]), event);
    if actions != [] {
      var init := actions[..|actions| - 1];
      forall k | 0 <= k <= |init| ensures OpenIn(Run(w, init[..k]), event) {
        assert init[..k] == actions[..k];
      }
      LedgerFrozenWhileOpen(w, init, event);
      assert init[..|init|] == init;
      RunIsSound(w, init);
      ApplyIsSound(Run(w, init), actions[|actions| - 1]);
    }
  }

  /** A reservation takes effect only on the very document its claim was made in: what is sent
      is eligible and fresh in the ledger that is durable at that moment. */
  lemma ReservationLandsOnLedgerRead(w: World, id: nat, job: Job, claimed: Cell)
    requires Inv(w) && id in w.workers && w.workers[id] == ReserveWrite(job, claimed)
    requires Apply(w, Step(id, Wrote)) != w
    ensures w.store == Some(claimed)
    ensures var v := Apply(w, Step(id, Wrote));
      && v.store.Some? && v.store.value.doc.commit == claimed.doc.commit
      && Attempts(v, job.event) == Attempts(w, job.event) + 1
      && OpenIn(v, job.event)
      && FreshForSend(v.store.value.doc.commit, Eligible(v.store.value.doc.commit.state, job.event), job.now)
  {
    hide FreshForSend, Eligible, SendsOk, SlotsOk, DocumentOk, Grown, Valid, ClockAccepted;
    WorkerAt(w, id);
  }

  /** Every send ever started carried an event that was eligible and fresh in the ledger it was
      reserved under, and as long as no later publish succeeded that is still the durable ledger. */
  lemma SendsCarryEligibleEvents(actions: seq<Action>, i: nat)
    requires i < |Run(START, actions).sends|
    ensures var w := Run(START, actions);
      var s := w.sends[i];
      && s.payload.Some? && s.payload == Eligible(s.commit.state, s.event)
      && ClockAccepted(s.now) && FreshForSend(s.commit, s.payload, s.now)
      && w.store.Some?
      && s.commit.sequence <= w.store.value.doc.commit.sequence
      && (s.commit.sequence == w.store.value.doc.commit.sequence ==> s.commit == w.store.value.doc.commit)
  {
    hide Run, Eligible, FreshForSend, StoreOk, WorkersOk, SlotsOk, ClockAccepted;
    ReachableIsSound(actions);
    assert SendOk(Run(START, actions), Run(START, actions).sends[i]);
  }

  /** No send is blind: before every send the destination was asked about that event under the same
      claim, and answered that it does not have it. */
  lemma SendsFollowAnAbsentLookup(actions: seq<Action>, i: nat)
    requires i < |Run(START, actions).sends|
    ensures var w := Run(START, actions);
      (w.sends[i].event, w.sends[i].claim) in w.absences
  {
    hide Run, Eligible, FreshForSend, StoreOk, WorkersOk, SlotsOk, ClockAccepted;
    ReachableIsSound(actions);
    assert SendOk(Run(START, actions), Run(START, actions).sends[i]);
  }

  // ---------- the journal over whole runs ----------

  /** Keys are never dropped, acknowledgements are final with an unchanging receipt, and the
      commit sequence never goes down. */
  lemma JournalIsMonotone(actions: seq<Action>, more: seq<Action>, event: EventId)
    requires var w := Run(START, actions); w.store.Some? && event in w.store.value.doc.journal
    ensures var w, v := Run(START, actions), Run(START, actions + more);
      && v.store.Some? && event in v.store.value.doc.journal
      && w.store.value.doc.commit.sequence <= v.store.value.doc.commit.sequence
      && (w.store.value.doc.journal[event].status == Acknowledged ==>
            v.store.value.doc.journal[event] == w.store.value.doc.journal[event])
  {
    hide Inv, Apply;
    ReachableIsSound(actions);
    RunContinues(START, actions, more);
    RunIsSound(Run(START, actions), more);
  }

  /** Each recorded receipt was returned by a destination lookup for that same event, and an
      entry has a receipt exactly when it is acknowledged. */
  lemma ReceiptsComeFromTheDestination(actions: seq<Action>, event: EventId)
    requires var w := Run(START, actions); w.store.Some? && event in w.store.value.doc.journal
    ensures var w := Run(START, actions);
      var entry := w.store.value.doc.journal[event];
      && (entry.status == Acknowledged <==> entry.receipt.Some?)
      && (entry.receipt.Some? ==> (event, entry.receipt.value) in w.evidence)
  {
    hide Run, WorkersOk, SendsOk, SlotsOk, StateAccepted, OpenEligible, Healthy;
    ReachableIsSound(actions);
    EntryOfValid(Run(START, actions).store.value.doc, Job(event, "", 0));
  }

  /** Every durable document passes validation, and all pending events of its ledger may be delivered. */
  lemma DurableDocumentsAreValid(actions: seq<Action>)
    requires Run(START, actions).store.Some?
    ensures Valid(Run(START, actions).store.value.doc)
    ensures Healthy(Run(START, actions).store.value.doc.commit.state)
  {
    hide Run, Valid, Healthy, WorkersOk, SendsOk, SlotsOk;
    ReachableIsSound(actions);
  }

  // ---------- recovery ----------

  /** One worker, alone, that the destination answers with an acknowledgement. */
  function RecoverySchedule(id: nat, job: Job, receipt: string): seq<Action> {
    [BeginDispatch(id, job), Step(id, Proceed), Step(id, Wrote), Step(id, Found(AcknowledgedBy(receipt))),
     Step(id, Found(AcknowledgedBy(receipt))), Step(id, Proceed), Step(id, Wrote)]
  }

  lemma RunFirst(w: World, a: Action, rest: seq<Action>)
    ensures Run(w, [a] + rest) == Run(Apply(w, a), rest)
  {
    hide Apply;
    RunContinues(w, [a], rest);
    assert Run(w, [a]) == Apply(w, a) by {
      assert [a][..0] == [];
    }
  }

  lemma ClaimOfOpenEntryIsValid(doc: Document, job: Job)
    requires Valid(doc) && job.event in doc.journal && IsOpen(doc.journal[job.event])
    ensures Valid(ClaimedDocument(doc, job))
    ensures forall receipt :: Valid(RecordedDocument(ClaimedDocument(doc, job), job, receipt))
  {
    hide StateAccepted;
    assert ClaimedDocument(doc, job).journal.Keys == doc.journal.Keys;
    EntryOfValid(doc, job);
    assert |ClaimedDocument(doc, job).journal| == |ClaimedDocument(doc, job).journal.Keys|;
    assert |doc.journal| == |doc.journal.Keys|;
    forall receipt: Option<string> ensures Valid(RecordedDocument(ClaimedDocument(doc, job), job, receipt)) {
      var recorded := RecordedDocument(ClaimedDocument(doc, job), job, receipt);
      assert recorded.journal.Keys == doc.journal.Keys;
      assert |recorded.journal| == |recorded.journal.Keys|;
    }
  }

  /** However a delivery was left open, once its lease has run out a single dispatcher that the
      destination acknowledges can close it: without a send, and with the ledger untouched. */
  lemma ExpiredClaimsCanBeRecovered(w: World, id: nat, job: Job, receipt: string)
    requires Inv(w) && id !in w.workers && JobAccepted(job)
    requires OpenIn(w, job.event) && w.store.value.doc.journal[job.event].leaseUntil <= job.now
    ensures var v := Run(w, RecoverySchedule(id, job, receipt));
      && v.sends == w.sends
      && v.store.Some? && v.store.value.doc.commit == w.store.value.doc.commit
      && v.store.value.doc.journal.Keys == w.store.value.doc.journal.Keys
      && v.store.value.doc.journal[job.event].status == Acknowledged
      && v.store.value.doc.journal[job.event].receipt == Some(receipt)
  {
    hide Run, Valid, FreshForSend, ClockAccepted, WorkersOk, SendsOk, SlotsOk, Evaluate, Eligible, OpenEligible,
      ReceiptsKnown, Healthy, PublishRead, AfterLookup;
    var schedule := RecoverySchedule(id, job, receipt);
    var doc := w.store.value.doc;
    ClaimOfOpenEntryIsValid(doc, job);
    var w1 := Apply(w, schedule[0]);
    assert w1 == Put(w, id, Dispatching(job));
    var w2 := Apply(w1, schedule[1]);
    assert w2 == Put(w, id, ClaimWrite(job, w.store.value));
    RunFirst(w, schedule[0], schedule[1..]);
    RunFirst(w1, schedule[1], schedule[2..]);
    assert schedule == [schedule[0]] + schedule[1..];
    assert schedule[1..] == [schedule[1]] + schedule[2..];
    assert schedule[2..] == [Step(id, Wrote)] + RecoveryAfterClaim(id, receipt);
    RecoveredAfterClaim(w2, id, job, w.store.value, receipt);
  }

  function RecoveryAfterClaim(id: nat, receipt: string): seq<Action> {
    [Step(id, Found(AcknowledgedBy(receipt))), Step(id, Found(AcknowledgedBy(receipt))), Step(id, Proceed), Step(id, Wrote)]
  }

  lemma RecoveredAfterClaim(w: World, id: nat, job: Job, read: Cell, receipt: string)
    requires w.store == Some(read) && id in w.workers && w.workers[id] == ClaimWrite(job, read) && JobAccepted(job)
    requires job.event in read.doc.journal && Valid(ClaimedDocument(read.doc, job))
    requires Valid(RecordedDocument(ClaimedDocument(read.doc, job), job, Some(receipt)))
    ensures var v := Run(w, [Step(id, Wrote)] + RecoveryAfterClaim(id, receipt));
      && v.sends == w.sends
      && v.store.Some? && v.store.value.doc == RecordedDocument(ClaimedDocument(read.doc, job), job, Some(receipt))
  {
    hide Run, Valid, ClockAccepted, FreshForSend, Eligible, Evaluate, Decide;
    var rest := RecoveryAfterClaim(id, receipt);
    var claimed := Cell(ClaimedDocument(read.doc, job), w.nextTag);
    RunFirst(w, Step(id, Wrote), rest);
    var w1 := Apply(w, Step(id, Wrote));
    assert w1 == Put(Installed(w, claimed.doc), id, Looking(job, claimed));
    var w2 := Apply(w1, rest[0]);
    assert w2 == Put(Noted(w1, job.event, AcknowledgedBy(receipt)), id, RecordLooking(job));
    RunFirst(w1, rest[0], RecoveryAfterLookup(id, receipt));
    assert rest == [rest[0]] + RecoveryAfterLookup(id, receipt);
    RecoveredAfterLookup(w2, id, job, claimed, receipt);
  }

  function RecoveryAfterLookup(id: nat, receipt: string): seq<Action> {
    [Step(id, Found(AcknowledgedBy(receipt))), Step(id, Proceed), Step(id, Wrote)]
  }

  lemma RecoveredAfterLookup(w: World, id: nat, job: Job, claimed: Cell, receipt: string)
    requires w.store == Some(claimed) && id in w.workers && w.workers[id] == RecordLooking(job) && JobAccepted(job)
    requires job.event in claimed.doc.journal && Valid(claimed.doc)
    requires IsOpen(Entry(claimed.doc, job)) && Entry(claimed.doc, job).owner == job.owner
    requires Valid(RecordedDocument(claimed.doc, job, Some(receipt)))
    ensures var v := Run(w, RecoveryAfterLookup(id, receipt));
      && v.sends == w.sends
      && v.store.Some? && v.store.value.doc == RecordedDocument(claimed.doc, job, Some(receipt))
  {
    hide Run, Valid, ClockAccepted, Evaluate;
    var rest := RecoveryAfterLookup(id, receipt);
    var w3 := Apply(w, rest[0]);
    assert w3 == Put(Noted(w, job.event, AcknowledgedBy(receipt)), id, RecordReading(job, Some(receipt), 0));
    var w4 := Apply(w3, rest[1]);
    assert w4 == Put(w3, id, RecordWrite(job, Some(receipt), 0, claimed));
    RunFirst(w, rest[0], [rest[1], rest[2]]);
    assert rest == [rest[0]] + [rest[1], rest[2]];
    RunFirst(w3, rest[1], [rest[2]]);
    assert [rest[1], rest[2]] == [rest[1]] + [rest[2]];
    RunFirst(w4, rest[2], []);
    assert [rest[2]] == [rest[2]] + [];
    RunNothing(Apply(w4, rest[2]));
  }

  lemma RunNothing(w: World)
    ensures Run(w, []) == w
  {
  }
}
