/** The publish and dispatch protocol over one compare-and-swap document: any number of workers,
    interleaved one atomic step at a time, any of which may stop for ever between two steps.

    A worker that never takes its next step has crashed. A write whose answer is lost is a write
    step that either takes effect and ends the worker, or is never taken; since nothing happens
    to an ended worker, a write that lands late is the same step taken late. A dispatcher that
    finds the document it claimed when it reads the store back goes on under the tag it read. */
module Dispatch {
  import opened Common
  import opened Calendar
  import opened LedgerTypes
  import opened LedgerAdmission
  import opened Ledger

  const MAX_JOURNAL := 4096
  const MAX_CAS_RETRIES := 3
  const MAX_ATTEMPTS := 100
  const LEASE_SECONDS := 120
  const MAX_SEQUENCE := 9_000_000_000_000_000

  // ---------- the durable document ----------

  datatype DeliveryStatus = Claimed | Unknown | Acknowledged | RetiredNoSend

  datatype JournalEntry = JournalEntry(status: DeliveryStatus, owner: string, leaseUntil: Time, attempts: int,
                                       receipt: Option<string>, retiredAt: Option<int>)

  /** What the commit id digests; the summary repeats it. */
  datatype Commit = Commit(state: State, at: Time, sequence: int, freshnessHours: int)

  datatype Document = Document(commit: Commit, journal: map<EventId, JournalEntry>)

  datatype Cell = Cell(doc: Document, tag: nat)

  predicate IsOpen(entry: JournalEntry) {
    entry.status == Claimed || entry.status == Unknown
  }

  predicate EntryValid(entry: JournalEntry, sequence: int) {
    && 0 <= entry.attempts <= MAX_ATTEMPTS
    && (entry.status == Acknowledged <==> entry.receipt.Some?)
    && (entry.status == RetiredNoSend <==> entry.retiredAt.Some?)
    && (entry.status == RetiredNoSend ==> entry.attempts == 0 && 1 <= entry.retiredAt.value <= sequence)
  }

  predicate Valid(doc: Document) {
    && 1 <= doc.commit.sequence <= MAX_SEQUENCE
    && StateAccepted(doc.commit.state)
    && 1 <= doc.commit.freshnessHours <= 36
    && |doc.journal| <= MAX_JOURNAL
    && forall e :: e in doc.journal ==> EntryValid(doc.journal[e], doc.commit.sequence)
  }

  /** fresh_for_send. */
  predicate FreshForSend(commit: Commit, event: Option<Event>, now: Time)
    requires ClockAccepted(now)
  {
    && event.Some?
    && InWindow(now, event.value.current.date)
    && 0 <= now - commit.at <= commit.freshnessHours * SECONDS_PER_HOUR
    && (event.value.current.qualifies || IsBelowThreshold(event.value.current) ==>
          SourceFresh(commit, event.value.current.date, now))
  }

  predicate SourceFresh(commit: Commit, date: Day, now: Time) {
    && date >= 1
    && MonthOf(date) in commit.state.snapshots
    && 0 <= now - commit.state.snapshots[MonthOf(date)].exportedAt <= commit.freshnessHours * SECONDS_PER_HOUR
  }

  // ---------- dispatch_one, locally ----------

  datatype Job = Job(event: EventId, owner: string, now: Time)

  datatype Decision = Return | Raise | Claim

  function ClaimedDocument(doc: Document, job: Job): Document {
    var attempts := if job.event in doc.journal then doc.journal[job.event].attempts else 0;
    doc.(journal := doc.journal[job.event :=
      JournalEntry(Claimed, job.owner, job.now + LEASE_SECONDS, attempts, None, None)])
  }

  /** What a dispatcher does after its first read. */
  function Decide(doc: Document, job: Job): Decision
    requires ClockAccepted(job.now)
  {
    var event := Eligible(doc.commit.state, job.event);
    var sendable := FreshForSend(doc.commit, event, job.now);
    if job.event !in doc.journal then
      if !sendable then Return
      else if |doc.journal| >= MAX_JOURNAL || !Valid(ClaimedDocument(doc, job)) then Raise
      else Claim
    else
      var entry := doc.journal[job.event];
      if entry.status == Acknowledged then Return
      else if entry.status == RetiredNoSend
              && (entry.retiredAt.None? || doc.commit.sequence <= entry.retiredAt.value || !sendable) then Return
      else if IsOpen(entry) && entry.leaseUntil > job.now then Raise
      else if !Valid(ClaimedDocument(doc, job)) then Raise
      else Claim
  }

  function Entry(doc: Document, job: Job): JournalEntry
    requires job.event in doc.journal
  {
    doc.journal[job.event]
  }

  function WithEntry(doc: Document, job: Job, entry: JournalEntry): Document {
    doc.(journal := doc.journal[job.event := entry])
  }

  function RetiredDocument(doc: Document, job: Job): Document
    requires job.event in doc.journal
  {
    WithEntry(doc, job, Entry(doc, job).(status := RetiredNoSend, retiredAt := Some(doc.commit.sequence)))
  }

  function ReservedDocument(doc: Document, job: Job): Document
    requires job.event in doc.journal
  {
    WithEntry(doc, job, Entry(doc, job).(attempts := Entry(doc, job).attempts + 1))
  }

  function RecordedDocument(doc: Document, job: Job, receipt: Option<string>): Document
    requires job.event in doc.journal
  {
    WithEntry(doc, job, Entry(doc, job).(status := if receipt.Some? then Acknowledged else Unknown, receipt := receipt))
  }

  // ---------- workers ----------

  datatype Worker =
    | Publishing(manifest: Manifest, policy: Policy, now: Time)
    | PublishWrite(base: Option<Cell>, next: Document)
    | Dispatching(job: Job)
    | ClaimWrite(job: Job, read: Cell)
    | Looking(job: Job, claimed: Cell)
    | RetireWrite(job: Job, claimed: Cell)
    | ReserveWrite(job: Job, claimed: Cell)
    | Sending(job: Job, reserved: Document, claim: nat)
    | AwaitingSend(job: Job, reserved: Document)
    | RecordLooking(job: Job)
    | RecordReading(job: Job, receipt: Option<string>, tries: nat)
    | RecordWrite(job: Job, receipt: Option<string>, tries: nat, read: Cell)
    | Done

  /** A started send: the attempt number it uses, what it carries, and the tag of its claim. */
  datatype Send = Send(event: EventId, slot: int, payload: Option<Event>, commit: Commit, now: Time, claim: nat)

  /** The store, its tag counter, the workers, and a history of sends, of receipts returned by
      destination lookups, and of lookups under a claim that were answered absent. */
  datatype World = World(store: Option<Cell>, nextTag: nat, workers: map<nat, Worker>, sends: seq<Send>,
                         evidence: set<(EventId, string)>, absences: set<(EventId, nat)>)

  const START := World(None, 0, map[], [], {}, {})

  datatype Evidence = AcknowledgedBy(receipt: string) | Absent | NotKnown

  /** How the environment answers a worker's step. */
  datatype Answer =
    | Proceed
    | Wrote
    | WroteUnanswered
    | Refused
    | Found(evidence: Evidence)
    | SendReturned(acknowledged: bool)

  datatype Action =
    | BeginPublish(id: nat, manifest: Manifest, policy: Policy, now: Time)
    | BeginDispatch(id: nat, job: Job)
    | Crash(id: nat)
    | Reread(id: nat)
    | Step(id: nat, answer: Answer)

  function Put(w: World, id: nat, worker: Worker): World {
    w.(workers := w.workers[id := worker])
  }

  predicate TagMatches(w: World, expected: Option<nat>) {
    match w.store
    case None => expected.None?
    case Some(cell) => expected == Some(cell.tag)
  }

  function Installed(w: World, doc: Document): World {
    w.(store := Some(Cell(doc, w.nextTag)), nextTag := w.nextTag + 1)
  }

  /** compare_and_swap: a write takes effect only under the expected tag, under a tag never used
      before; a refusal writes nothing; a write may take effect although nobody hears of it. */
  function CompareAndSwap(w: World, id: nat, expected: Option<nat>, doc: Document, answer: Answer,
                          written: Worker, refused: Worker): World
  {
    match answer
    case Wrote => if TagMatches(w, expected) then Put(Installed(w, doc), id, written) else w
    case WroteUnanswered => if TagMatches(w, expected) then Put(Installed(w, doc), id, Done) else w
    case Refused => Put(w, id, refused)
    case _ => w
  }

  ghost function PublishedDocument(base: Option<Cell>, manifest: Manifest, policy: Policy,
                                   now: Time): Option<Document> {
    var previous := if base.Some? then base.value.doc.commit.state else EMPTY_STATE;
    var next := Evaluate(manifest, policy, now, previous);
    if next.None? then None
    else Some(Document(
      Commit(next.value, now, if base.Some? then base.value.doc.commit.sequence + 1 else 1, policy.freshnessHours),
      if base.Some? then base.value.doc.journal else map[]))
  }

  predicate HasOpenEntry(doc: Document) {
    exists e :: e in doc.journal && IsOpen(doc.journal[e])
  }

  ghost function PublishRead(w: World, worker: Worker): Worker
    requires worker.Publishing?
  {
    if w.store.Some? && (!Valid(w.store.value.doc) || HasOpenEntry(w.store.value.doc)) then Done
    else
      var next := PublishedDocument(w.store, worker.manifest, worker.policy, worker.now);
      if next.None? || !Valid(next.value) then Done else PublishWrite(w.store, next.value)
  }

  function DispatchRead(w: World, job: Job): Worker
    requires ClockAccepted(job.now)
  {
    if w.store.None? || !Valid(w.store.value.doc) then Done
    else if Decide(w.store.value.doc, job) == Claim then ClaimWrite(job, w.store.value)
    else Done
  }

  /** What a dispatcher does once the destination answered its first lookup. */
  function AfterLookup(job: Job, claimed: Cell, evidence: Evidence): Worker
    requires ClockAccepted(job.now) && job.event in claimed.doc.journal
  {
    match evidence
    case AcknowledgedBy(_) => RecordLooking(job)
    case NotKnown => RecordReading(job, None, 0)
    case Absent =>
      var sendable := FreshForSend(claimed.doc.commit, Eligible(claimed.doc.commit.state, job.event), job.now);
      var attempts := Entry(claimed.doc, job).attempts;
      if !sendable && attempts == 0 then
        if Valid(RetiredDocument(claimed.doc, job)) then RetireWrite(job, claimed) else Done
      else if !sendable || attempts >= MAX_ATTEMPTS then RecordReading(job, None, 0)
      else if Valid(ReservedDocument(claimed.doc, job)) then ReserveWrite(job, claimed)
      else Done
  }

  function RecordRead(w: World, worker: Worker): Worker
    requires worker.RecordReading?
  {
    if w.store.None? || !Valid(w.store.value.doc) || worker.job.event !in w.store.value.doc.journal then Done
    else
      var doc := w.store.value.doc;
      var entry := Entry(doc, worker.job);
      if !IsOpen(entry) || entry.owner != worker.job.owner then Done
      else if !Valid(RecordedDocument(doc, worker.job, worker.receipt)) then Done
      else RecordWrite(worker.job, worker.receipt, worker.tries, w.store.value)
  }

  function Noted(w: World, event: EventId, evidence: Evidence): World {
    match evidence
    case AcknowledgedBy(receipt) => w.(evidence := w.evidence + {(event, receipt)})
    case _ => w
  }

  /** The lookup that every claim begins with. */
  function NotedUnder(w: World, event: EventId, claim: nat, evidence: Evidence): World {
    var noted := Noted(w, event, evidence);
    if evidence.Absent? then noted.(absences := noted.absences + {(event, claim)}) else noted
  }

  predicate JobAccepted(job: Job) {
    ClockAccepted(job.now)
  }

  /** The bodies of workers refer to journal entries they read; these conditions always hold. */
  predicate WellFormed(worker: Worker) {
    match worker
    case Dispatching(job) => JobAccepted(job)
    case ClaimWrite(job, _) => JobAccepted(job)
    case Looking(job, claimed) => JobAccepted(job) && job.event in claimed.doc.journal
    case RetireWrite(job, claimed) => JobAccepted(job) && job.event in claimed.doc.journal
    case ReserveWrite(job, claimed) => JobAccepted(job) && job.event in claimed.doc.journal
    case Sending(job, reserved, _) => JobAccepted(job) && job.event in reserved.journal
    case AwaitingSend(job, reserved) => JobAccepted(job) && job.event in reserved.journal
    case RecordWrite(job, _, _, read) => job.event in read.doc.journal
    case _ => true
  }

  /** One atomic step of one worker; an answer that does not fit the step changes nothing. */
  ghost function Stepped(w: World, id: nat, worker: Worker, answer: Answer): World
    requires WellFormed(worker)
  {
    match worker
    case Publishing(_, _, _) => if answer.Proceed? then Put(w, id, PublishRead(w, worker)) else w
    case PublishWrite(base, next) =>
      CompareAndSwap(w, id, if base.Some? then Some(base.value.tag) else None, next, answer, Done, Done)
    case Dispatching(job) => if answer.Proceed? then Put(w, id, DispatchRead(w, job)) else w
    case ClaimWrite(job, read) =>
      var doc := ClaimedDocument(read.doc, job);
      CompareAndSwap(w, id, Some(read.tag), doc, answer, Looking(job, Cell(doc, w.nextTag)), Done)
    case Looking(job, claimed) =>
      if answer.Found?
      then Put(NotedUnder(w, job.event, claimed.tag, answer.evidence), id, AfterLookup(job, claimed, answer.evidence)) else w
    case RetireWrite(job, claimed) =>
      CompareAndSwap(w, id, Some(claimed.tag), RetiredDocument(claimed.doc, job), answer, Done, Done)
    case ReserveWrite(job, claimed) =>
      var doc := ReservedDocument(claimed.doc, job);
      CompareAndSwap(w, id, Some(claimed.tag), doc, answer, Sending(job, doc, claimed.tag), Done)
    case Sending(job, reserved, claim) =>
      if answer.Proceed? then
        var send := Send(job.event, Entry(reserved, job).attempts, Eligible(reserved.commit.state, job.event),
                         reserved.commit, job.now, claim);
        Put(w, id, AwaitingSend(job, reserved)).(sends := w.sends + [send])
      else w
    case AwaitingSend(job, _) =>
      if answer.SendReturned?
      then Put(w, id, if answer.acknowledged then RecordLooking(job) else RecordReading(job, None, 0)) else w
    case RecordLooking(job) =>
      if answer.Found?
      then Put(Noted(w, job.event, answer.evidence), id,
               RecordReading(job, if answer.evidence.AcknowledgedBy? then Some(answer.evidence.receipt) else None, 0))
      else w
    case RecordReading(_, _, _) => if answer.Proceed? then Put(w, id, RecordRead(w, worker)) else w
    case RecordWrite(job, receipt, tries, read) =>
      CompareAndSwap(w, id, Some(read.tag), RecordedDocument(read.doc, job, receipt), answer, Done,
                     if tries + 1 < MAX_CAS_RETRIES then RecordReading(job, receipt, tries + 1) else Done)
    case Done => w
  }

  /** Another writer may have written the claimed document again, under a new tag. */
  function RereadStep(w: World, id: nat): World
    requires id in w.workers
  {
    match w.workers[id]
    case Looking(job, claimed) =>
      if w.store.Some? && w.store.value.doc == claimed.doc then Put(w, id, Looking(job, w.store.value)) else w
    case _ => w
  }

  ghost function Apply(w: World, a: Action): World {
    match a
    case BeginPublish(id, manifest, policy, now) =>
      if id in w.workers then w else Put(w, id, Publishing(manifest, policy, now))
    case BeginDispatch(id, job) =>
      if id in w.workers || !JobAccepted(job) then w else Put(w, id, Dispatching(job))
    case Crash(id) => if id in w.workers then Put(w, id, Done) else w
    case Reread(id) => if id in w.workers then RereadStep(w, id) else w
    case Step(id, answer) =>
      if id in w.workers && WellFormed(w.workers[id]) then Stepped(w, id, w.workers[id], answer) else w
  }

  /** Any list of actions: any number of workers, any interleaving, any answers. */
  ghost function Run(w: World, actions: seq<Action>): World
    decreases |actions|
  {
    if actions == [] then w else Apply(Run(w, actions[..|actions| - 1]), actions[|actions| - 1])
  }
}
