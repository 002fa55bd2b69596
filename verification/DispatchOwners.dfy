/** Who wrote what: a journal entry carries the owner and the lease of the dispatch call that claimed it.
    While no two calls share event, owner and time, a document a worker has yet to claim or reserve never
    stands in the store already. */
module DispatchOwners {
  import opened Common
  import opened Calendar
  import opened LedgerTypes
  import opened LedgerAdmission
  import opened Dispatch
  import opened DispatchSafety

  // ---------- requests ----------

  predicate IsWrite(worker: Worker) {
    worker.PublishWrite? || worker.ClaimWrite? || worker.RetireWrite? || worker.ReserveWrite? || worker.RecordWrite?
  }

  /** The writes after which a worker goes on; the others end it either way, a refused record aside. */
  predicate GoesOn(worker: Worker) {
    worker.ClaimWrite? || worker.ReserveWrite?
  }

  function DocumentOf(worker: Worker): Document
    requires IsWrite(worker) && WellFormed(worker)
  {
    match worker
    case PublishWrite(_, next) => next
    case ClaimWrite(job, read) => ClaimedDocument(read.doc, job)
    case RetireWrite(job, claimed) => RetiredDocument(claimed.doc, job)
    case ReserveWrite(job, claimed) => ReservedDocument(claimed.doc, job)
    case RecordWrite(job, receipt, _, read) => RecordedDocument(read.doc, job, receipt)
  }

  function BaseOf(worker: Worker): Option<Cell>
    requires IsWrite(worker)
  {
    match worker
    case PublishWrite(base, _) => base
    case ClaimWrite(_, read) => Some(read)
    case RetireWrite(_, claimed) => Some(claimed)
    case ReserveWrite(_, claimed) => Some(claimed)
    case RecordWrite(_, _, _, read) => Some(read)
  }

  function ExpectedOf(worker: Worker): Option<nat>
    requires IsWrite(worker)
  {
    if BaseOf(worker).Some? then Some(BaseOf(worker).value.tag) else None
  }

  /** Where a worker goes on when its write is reported as successful under a tag. */
  function AfterSuccess(worker: Worker, tag: nat): Worker
    requires IsWrite(worker) && WellFormed(worker)
  {
    match worker
    case ClaimWrite(job, _) => Looking(job, Cell(DocumentOf(worker), tag))
    case ReserveWrite(job, claimed) => Sending(job, DocumentOf(worker), claimed.tag)
    case _ => Done
  }

  lemma EndsIfNotGoingOn(worker: Worker, tag: nat)
    requires IsWrite(worker) && WellFormed(worker) && !GoesOn(worker)
    ensures AfterSuccess(worker, tag) == Done
  {
  }

  function AfterConflict(worker: Worker): Worker {
    match worker
    case RecordWrite(job, receipt, tries, _) =>
      if tries + 1 < MAX_CAS_RETRIES then RecordReading(job, receipt, tries + 1) else Done
    case _ => Done
  }

  /** What the protocol's write steps do. */
  lemma WriteSteps(w: World, id: nat, worker: Worker)
    requires id in w.workers && w.workers[id] == worker && IsWrite(worker) && WellFormed(worker)
    ensures Apply(w, Step(id, Refused)) == Put(w, id, AfterConflict(worker))
    ensures TagMatches(w, ExpectedOf(worker)) ==>
      && Apply(w, Step(id, Wrote)) == Put(Installed(w, DocumentOf(worker)), id, AfterSuccess(worker, w.nextTag))
      && Apply(w, Step(id, WroteUnanswered)) == Put(Installed(w, DocumentOf(worker)), id, Done)
    ensures forall answer :: answer != Refused && !((answer == Wrote || answer == WroteUnanswered) && TagMatches(w, ExpectedOf(worker))) ==>
      Apply(w, Step(id, answer)) == w
  {
    hide ClaimedDocument, RetiredDocument, ReservedDocument, RecordedDocument, ClockAccepted;
  }

  // ---------- calls and their marks ----------

  /** The dispatch calls that were begun, by worker. */
  type Calls = map<nat, Job>

  predicate NoneTwice(calls: Calls) {
    forall i, j :: i in calls && j in calls && calls[i] == calls[j] ==> i == j
  }

  function CallsAfter(w: World, calls: Calls, a: Action): Calls {
    if a.BeginDispatch? && a.id !in w.workers && JobAccepted(a.job) then calls[a.id := a.job] else calls
  }

  /** The entry of the call's event carries the call's owner and lease. */
  predicate Marked(doc: Document, job: Job) {
    && job.event in doc.journal
    && doc.journal[job.event].owner == job.owner && doc.journal[job.event].leaseUntil == job.now + LEASE_SECONDS
  }

  function JobIn(worker: Worker): Option<Job> {
    if worker.Publishing? || worker.PublishWrite? || worker.Done? then None else Some(worker.job)
  }

  /** Every entry was claimed by a call that was begun. */
  predicate EntriesOwned(doc: Document, calls: Calls) {
    forall e :: e in doc.journal ==> Job(e, doc.journal[e].owner, doc.journal[e].leaseUntil - LEASE_SECONDS) in calls.Values
  }

  /** The claim is the call's own, and nobody has reserved a send under it since. */
  predicate ClaimUnused(store: Option<Cell>, job: Job, claimed: Document) {
    && Marked(claimed, job)
    && (store.Some? && Marked(store.value.doc, job) ==> Entry(store.value.doc, job).attempts == Entry(claimed, job).attempts)
  }

  predicate OwnWorker(store: Option<Cell>, calls: Calls, id: nat, worker: Worker) {
    && (JobIn(worker).Some? ==> id in calls && calls[id] == JobIn(worker).value)
    && match worker
       case Dispatching(job) => store.Some? ==> !Marked(store.value.doc, job)
       case ClaimWrite(job, _) => store.Some? ==> !Marked(store.value.doc, job)
       case Looking(job, claimed) => ClaimUnused(store, job, claimed.doc)
       case RetireWrite(job, claimed) => ClaimUnused(store, job, claimed.doc)
       case ReserveWrite(job, claimed) => ClaimUnused(store, job, claimed.doc)
       case _ => true
  }

  ghost predicate Own(w: World, calls: Calls) {
    && calls.Keys <= w.workers.Keys && NoneTwice(calls)
    && (w.store.Some? ==> EntriesOwned(w.store.value.doc, calls))
    && forall id :: id in w.workers ==> OwnWorker(w.store, calls, id, w.workers[id])
  }

  lemma StartIsOwn()
    ensures Own(START, map[])
  {
  }

  /** The document of a claim or a reservation that was not applied does not stand in the store. */
  lemma UnappliedIsNotThere(w: World, calls: Calls, id: nat)
    requires Own(w, calls) && id in w.workers && GoesOn(w.workers[id]) && WellFormed(w.workers[id]) && w.store.Some?
    ensures w.store.value.doc != DocumentOf(w.workers[id])
  {
    hide ClockAccepted;
    assert OwnWorker(w.store, calls, id, w.workers[id]);
  }

  // ---------- every step keeps this ----------

  lemma LocalKeepsOwn(w: World, v: World, calls: Calls, id: nat, worker: Worker)
    requires Own(w, calls) && v.store == w.store && v.workers == w.workers[id := worker] && id in w.workers
    requires OwnWorker(w.store, calls, id, worker)
    ensures Own(v, calls)
  {
    hide OwnWorker, EntriesOwned;
  }

  /** A step that writes nothing leaves the worker with its call. */
  lemma QuietStepKeepsCall(w: World, calls: Calls, id: nat, worker: Worker, answer: Answer)
    requires id in w.workers && w.workers[id] == worker && WellFormed(worker) && !IsWrite(worker)
    requires OwnWorker(w.store, calls, id, worker)
    ensures var v := Stepped(w, id, worker, answer);
      && v.store == w.store && id in v.workers && v.workers == w.workers[id := v.workers[id]]
      && OwnWorker(w.store, calls, id, v.workers[id])
  {
    hide Valid, ClockAccepted, FreshForSend, Eligible, Decide, PublishedDocument, HasOpenEntry, Marked, RecordedDocument,
      RetiredDocument, ReservedDocument;
    assert w.workers[id := worker] == w.workers;
  }

  lemma BaseIsCurrent(w: World, worker: Worker)
    requires WorkerOk(w, worker) && IsWrite(worker) && TagMatches(w, ExpectedOf(worker))
    ensures w.store == BaseOf(worker)
    ensures worker.PublishWrite? ==>
      worker.next.journal == if worker.base.Some? then worker.base.value.doc.journal else map[]
  {
    hide Valid, DocumentOk, Grown, FreshForSend, Eligible, Decide, ClockAccepted, HasOpenEntry;
  }

  /** A mark in a written document was there before, or is the claim's own; only a reservation under it
      changes its attempts. */
  lemma MarksComeFrom(worker: Worker, k: Job)
    requires IsWrite(worker) && WellFormed(worker) && Marked(DocumentOf(worker), k)
    requires worker.ReserveWrite? ==> Marked(worker.claimed.doc, worker.job)
    requires worker.PublishWrite? ==>
      worker.next.journal == if worker.base.Some? then worker.base.value.doc.journal else map[]
    requires !(worker.ClaimWrite? && worker.job == k)
    ensures BaseOf(worker).Some? && Marked(BaseOf(worker).value.doc, k)
    ensures (worker.ReserveWrite? && worker.job == k)
      || Entry(DocumentOf(worker), k).attempts == Entry(BaseOf(worker).value.doc, k).attempts
  {
    hide ClockAccepted;
  }

  lemma WrittenIsOwned(worker: Worker, calls: Calls, id: nat)
    requires IsWrite(worker) && WellFormed(worker)
    requires JobIn(worker).Some? ==> id in calls && calls[id] == JobIn(worker).value
    requires BaseOf(worker).Some? ==> EntriesOwned(BaseOf(worker).value.doc, calls)
    requires worker.PublishWrite? ==>
      worker.next.journal == if worker.base.Some? then worker.base.value.doc.journal else map[]
    ensures EntriesOwned(DocumentOf(worker), calls)
  {
    hide ClockAccepted;
  }

  /** The other workers after a write. */
  lemma WriteKeepsOthers(w: World, calls: Calls, id: nat, other: nat, cell: Cell)
    requires Own(w, calls) && id in w.workers && other in w.workers && other != id
    requires IsWrite(w.workers[id]) && WellFormed(w.workers[id]) && BaseOf(w.workers[id]) == w.store
    requires w.workers[id].PublishWrite? ==>
      w.workers[id].next.journal == if w.store.Some? then w.store.value.doc.journal else map[]
    requires cell.doc == DocumentOf(w.workers[id])
    ensures OwnWorker(Some(cell), calls, other, w.workers[other])
  {
    hide ClockAccepted, DocumentOf, Marked;
    var worker := w.workers[id];
    assert OwnWorker(w.store, calls, id, worker) && OwnWorker(w.store, calls, other, w.workers[other]);
    if JobIn(w.workers[other]).Some? {
      var k := JobIn(w.workers[other]).value;
      if Marked(cell.doc, k) {
        MarksComeFrom(worker, k);
      }
    }
  }

  /** The writer itself. */
  lemma WriterGoesOn(worker: Worker, calls: Calls, id: nat, store: Option<Cell>, tag: nat)
    requires IsWrite(worker) && WellFormed(worker) && OwnWorker(store, calls, id, worker)
    ensures OwnWorker(Some(Cell(DocumentOf(worker), tag)), calls, id, AfterSuccess(worker, tag))
  {
    hide ClockAccepted;
  }

  lemma WriteKeepsOwn(w: World, calls: Calls, id: nat, next: Worker)
    requires Inv(w) && Own(w, calls) && id in w.workers && IsWrite(w.workers[id]) && WellFormed(w.workers[id])
    requires TagMatches(w, ExpectedOf(w.workers[id]))
    requires next == AfterSuccess(w.workers[id], w.nextTag) || next == Done
    ensures Own(Put(Installed(w, DocumentOf(w.workers[id])), id, next), calls)
  {
    hide Inv, OwnWorker, EntriesOwned, DocumentOf, AfterSuccess, WellFormed, ExpectedOf, WorkerOk;
    var worker := w.workers[id];
    WorkerAt(w, id);
    BaseIsCurrent(w, worker);
    JobIsCall(w.store, calls, id, worker);
    WrittenIsOwned(worker, calls, id);
    var v := Put(Installed(w, DocumentOf(worker)), id, next);
    forall other | other in v.workers ensures OwnWorker(v.store, calls, other, v.workers[other]) {
      if other != id {
        WriteKeepsOthers(w, calls, id, other, v.store.value);
      } else {
        WriterGoesOn(worker, calls, id, w.store, w.nextTag);
        DoneIsOwn(v.store, calls, id);
      }
    }
  }

  lemma JobIsCall(store: Option<Cell>, calls: Calls, id: nat, worker: Worker)
    requires OwnWorker(store, calls, id, worker)
    ensures JobIn(worker).Some? ==> id in calls && calls[id] == JobIn(worker).value
  {
  }

  lemma DoneIsOwn(store: Option<Cell>, calls: Calls, id: nat)
    ensures OwnWorker(store, calls, id, Done)
  {
  }

  lemma ConflictIsOwn(store: Option<Cell>, calls: Calls, id: nat, worker: Worker)
    requires OwnWorker(store, calls, id, worker)
    ensures OwnWorker(store, calls, id, AfterConflict(worker))
  {
  }

  lemma StepKeepsOwn(w: World, calls: Calls, id: nat, answer: Answer)
    requires Inv(w) && Own(w, calls)
    ensures Own(Apply(w, Step(id, answer)), calls)
  {
    hide Inv, Own, OwnWorker, DocumentOf, AfterSuccess, AfterConflict, WellFormed, ExpectedOf, Apply, IsWrite, Stepped;
    if id in w.workers && WellFormed(w.workers[id]) {
      var worker := w.workers[id];
      WorkerIsOwn(w, calls, id);
      if IsWrite(worker) {
        WriteSteps(w, id, worker);
        if TagMatches(w, ExpectedOf(worker)) {
          WriteKeepsOwn(w, calls, id, AfterSuccess(worker, w.nextTag));
          WriteKeepsOwn(w, calls, id, Done);
        }
        ConflictIsOwn(w.store, calls, id, worker);
        LocalKeepsOwn(w, Put(w, id, AfterConflict(worker)), calls, id, AfterConflict(worker));
      } else {
        QuietStepKeepsCall(w, calls, id, worker, answer);
        var v := Stepped(w, id, worker, answer);
        LocalKeepsOwn(w, v, calls, id, v.workers[id]);
        StepIsStepped(w, id, answer);
      }
    } else {
      StepIsStepped(w, id, answer);
    }
  }

  lemma StepIsStepped(w: World, id: nat, answer: Answer)
    ensures Apply(w, Step(id, answer)) ==
      if id in w.workers && WellFormed(w.workers[id]) then Stepped(w, id, w.workers[id], answer) else w
  {
    hide Stepped, WellFormed;
  }

  lemma WorkerIsOwn(w: World, calls: Calls, id: nat)
    requires Own(w, calls) && id in w.workers
    ensures OwnWorker(w.store, calls, id, w.workers[id])
  {
  }

  lemma BeginKeepsOwn(w: World, calls: Calls, id: nat, job: Job)
    requires Own(w, calls) && id !in w.workers && NoneTwice(calls[id := job])
    ensures Own(Put(w, id, Dispatching(job)), calls[id := job])
  {
    hide ClaimUnused;
    var more := calls[id := job];
    assert forall k :: k in calls ==> k != id && more[k] == calls[k];
    assert more[id] == job;
    forall x | x in calls.Values ensures x in more.Values {
      var k :| k in calls && calls[k] == x;
      assert more[k] == x;
    }
  }

  /** Every action keeps it, as long as no call is begun twice. */
  lemma ApplyKeepsOwn(w: World, calls: Calls, a: Action)
    requires Inv(w) && Own(w, calls) && NoneTwice(CallsAfter(w, calls, a))
    ensures Own(Apply(w, a), CallsAfter(w, calls, a))
  {
    hide Inv, OwnWorker, EntriesOwned, Stepped, ClockAccepted, Own;
    match a
    case BeginPublish(id, manifest, policy, now) => PublisherIsOwn(w, calls, id, manifest, policy, now);
    case BeginDispatch(id, job) => if id !in w.workers && JobAccepted(job) { BeginKeepsOwn(w, calls, id, job); }
    case Crash(id) =>
      if id in w.workers {
        DoneIsOwn(w.store, calls, id);
        LocalKeepsOwn(w, Put(w, id, Done), calls, id, Done);
      }
    case Reread(id) => if id in w.workers { RereadKeepsOwn(w, calls, id); }
    case Step(id, answer) => StepKeepsOwn(w, calls, id, answer);
  }

  lemma PublisherIsOwn(w: World, calls: Calls, id: nat, manifest: Manifest, policy: Policy, now: Time)
    requires Own(w, calls)
    ensures id !in w.workers ==> Own(Put(w, id, Publishing(manifest, policy, now)), calls)
  {
    hide EntriesOwned, ClaimUnused, Marked;
  }

  lemma RereadKeepsOwn(w: World, calls: Calls, id: nat)
    requires Own(w, calls) && id in w.workers
    ensures Own(RereadStep(w, id), calls)
  {
    hide EntriesOwned, Own, Marked;
    WorkerIsOwn(w, calls, id);
    match w.workers[id]
    case Looking(job, claimed) =>
      if w.store.Some? && w.store.value.doc == claimed.doc {
        LocalKeepsOwn(w, RereadStep(w, id), calls, id, Looking(job, w.store.value));
      }
    case _ =>
  }
}
