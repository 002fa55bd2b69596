/** publish, dispatch_one and _record_destination_evidence as the code writes them: one worker's calls to the
    store and the destination in order. Every call is one step of the protocol, so whatever is proved
    about the protocol's runs holds for these methods. */
module DispatchWorker {
  import opened Common
  import opened Calendar
  import opened LedgerTypes
  import opened LedgerAdmission
  import opened Ledger
  import opened Dispatch
  import opened DispatchSafety

  /** What becomes of one conditional write: heard or not, lost to another writer, or never arriving. */
  datatype Wire = Lands | LandsUnheard | LosesRace | NeverLands

  datatype Heard = Written | Conflict | Unheard

  /** A destination call that answers, or raises. */
  datatype Reply<+T> = Replied(value: T) | Raised

  datatype Outcome = Returned(status: DeliveryStatus) | Ineligible | Failed

  /** What a call reports, and what it leaves in the store. */
  type Effect = (Outcome, Option<Cell>)

  /** Everything one call of dispatch_one depends on from outside. */
  datatype Surroundings = Surroundings(claim: Wire, lookup: Reply<Evidence>, retire: Wire, reserve: Wire, send: Reply<bool>,
                                       secondLookup: Reply<Evidence>, records: seq<Wire>)

  function ActorOf(a: Action): nat {
    match a
    case BeginPublish(id, _, _, _) => id
    case BeginDispatch(id, _) => id
    case Crash(id) => id
    case Reread(id) => id
    case Step(id, _) => id
  }

  /** The run went on, and only this worker took steps. */
  ghost predicate Extends(before: seq<Action>, after: seq<Action>, id: nat) {
    before <= after && forall k :: |before| <= k < |after| ==> ActorOf(after[k]) == id
  }

  lemma ExtendsSelf(a: seq<Action>, id: nat)
    ensures Extends(a, a, id)
  {
  }

  lemma ExtendsFurther(a: seq<Action>, b: seq<Action>, c: seq<Action>, id: nat)
    requires Extends(a, b, id) && Extends(b, c, id)
    ensures Extends(a, c, id)
  {
  }

  lemma ExtendsIsPrefix(a: seq<Action>, b: seq<Action>, id: nat)
    requires Extends(a, b, id)
    ensures a <= b
  {
  }

  // ---------- the store ----------

  class Store {
    var cell: Option<Cell>
    var nextTag: nat
    /** The protocol's world, and the actions that led to it. */
    ghost const start: World
    ghost var actions: seq<Action>
    ghost var world: World

    ghost predicate Valid()
      reads this
    {
      world == Run(start, actions) && cell == world.store && nextTag == world.nextTag
    }

    ghost constructor (start: World)
      ensures Valid() && this.start == start && actions == []
    {
      this.start, actions, world, cell, nextTag := start, [], start, start.store, start.nextTag;
      new;
      assert Run(start, []) == start;
    }

    method Read() returns (read: Option<Cell>)
      ensures read == cell
    {
      read := cell;
    }

    /** A step of the protocol that leaves the store alone. */
    ghost method Take(a: Action)
      requires Valid() && Apply(world, a).store == world.store && Apply(world, a).nextTag == world.nextTag
      modifies this`actions, this`world
      ensures Valid() && actions == old(actions) + [a] && world == Apply(old(world), a)
      ensures Extends(old(actions), actions, ActorOf(a))
    {
      hide Apply;
      assert (actions + [a])[..|actions|] == actions;
      actions, world := actions + [a], Apply(world, a);
    }

    /** Writes if and only if the tag matches; the caller learns of it, of a conflict, or nothing. */
    method CompareAndSwap(id: nat, expected: Option<nat>, document: Document, wire: Wire) returns (heard: Heard)
      requires Valid() && Writes(world, id, expected, document)
      modifies this
      ensures Valid() && Extends(old(actions), actions, id)
      ensures world.sends == old(world).sends
      ensures var matches := old(TagMatches(world, expected));
        heard == if wire == NeverLands then Unheard else if wire == LosesRace || !matches then Conflict
                 else if wire == Lands then Heard.Written else Unheard
      ensures (cell, nextTag) == if old(TagMatches(world, expected)) && (wire == Lands || wire == LandsUnheard)
        then (Some(Cell(document, old(nextTag))), old(nextTag) + 1) else (old(cell), old(nextTag))
      ensures heard.Written? ==> actions == old(actions) + [Step(id, Wrote)] && world == Apply(old(world), Step(id, Wrote))
      ensures heard.Conflict? ==> world == Apply(old(world), Step(id, Refused))
      ensures id in world.workers
    {
      hide Run, Apply;
      var matches := if cell.Some? then expected == Some(cell.value.tag) else expected == None;
      if wire == NeverLands {
        return Unheard;
      }
      if wire == LosesRace || !matches {
        Answered(id, expected, document, Refused);
        return Conflict;
      }
      Answered(id, expected, document, if wire == Lands then Wrote else WroteUnanswered);
      cell, nextTag := Some(Cell(document, nextTag)), nextTag + 1;
      heard := if wire == Lands then Heard.Written else Unheard;
    }

    ghost method Answered(id: nat, expected: Option<nat>, document: Document, answer: Answer)
      requires world == Run(start, actions) && Writes(world, id, expected, document)
      requires answer == Refused || TagMatches(world, expected)
      requires answer in {Refused, Wrote, WroteUnanswered}
      modifies this`actions, this`world
      ensures world == Run(start, actions) && actions == old(actions) + [Step(id, answer)]
      ensures world == Apply(old(world), Step(id, answer))
      ensures world.sends == old(world).sends && id in world.workers
      ensures answer == Refused ==> world.store == old(world).store && world.nextTag == old(world).nextTag
      ensures answer != Refused ==> world.store == Some(Cell(document, old(world).nextTag)) && world.nextTag == old(world).nextTag + 1
    {
      WriteApplies(world, id, expected, document, answer);
      hide Apply, Writes;
      var a := Step(id, answer);
      assert (actions + [a])[..|actions|] == actions;
      actions, world := actions + [a], Apply(world, a);
    }
  }

  /** The worker is about to write this document under this tag. */
  ghost predicate Writes(w: World, id: nat, expected: Option<nat>, document: Document) {
    && id in w.workers && WellFormed(w.workers[id])
    && match w.workers[id]
       case PublishWrite(base, next) => expected == (if base.Some? then Some(base.value.tag) else None) && document == next
       case ClaimWrite(job, read) => expected == Some(read.tag) && document == ClaimedDocument(read.doc, job)
       case RetireWrite(job, claimed) => expected == Some(claimed.tag) && document == RetiredDocument(claimed.doc, job)
       case ReserveWrite(job, claimed) => expected == Some(claimed.tag) && document == ReservedDocument(claimed.doc, job)
       case RecordWrite(job, receipt, _, read) => expected == Some(read.tag) && document == RecordedDocument(read.doc, job, receipt)
       case _ => false
  }

  lemma WriteApplies(w: World, id: nat, expected: Option<nat>, document: Document, answer: Answer)
    requires Writes(w, id, expected, document) && (answer == Refused || TagMatches(w, expected))
    requires answer in {Refused, Wrote, WroteUnanswered}
    ensures var v := Apply(w, Step(id, answer));
      && v.sends == w.sends && id in v.workers
      && (answer == Refused ==> v.store == w.store && v.nextTag == w.nextTag)
      && (answer != Refused ==> v.store == Some(Cell(document, w.nextTag)) && v.nextTag == w.nextTag + 1)
  {
    hide ClaimedDocument, RetiredDocument, ReservedDocument, RecordedDocument, ClockAccepted;
  }

  // ---------- recording the destination's evidence ----------

  /** The status the entry has now, as far as the caller is told. */
  ghost predicate Reports(outcome: Outcome, cell: Option<Cell>, event: EventId) {
    outcome.Returned? ==> cell.Some? && event in cell.value.doc.journal && cell.value.doc.journal[event].status == outcome.status
  }

  /** The n-th record write; writes that are not mentioned land. */
  function WireAt(records: seq<Wire>, n: nat): Wire {
    if n < |records| then records[n] else Lands
  }

  /** The write that decides: the first from the n-th on that does not lose to another writer, if one of
      the tries left does not. */
  function Deciding(records: seq<Wire>, n: nat): Option<Wire>
    decreases MAX_CAS_RETRIES - n
  {
    if n >= MAX_CAS_RETRIES then None
    else if WireAt(records, n) != LosesRace then Some(WireAt(records, n))
    else Deciding(records, n + 1)
  }

  function StatusFor(receipt: Option<string>): DeliveryStatus {
    if receipt.Some? then Acknowledged else DeliveryStatus.Unknown
  }

  /** What recording evidence has to report and to leave behind: an entry resolved meanwhile is reported
      as it is, one taken over is left alone, and otherwise the deciding write says what happens. */
  function Recorded(cell: Option<Cell>, nextTag: nat, job: Job, receipt: Option<string>,
                    wire: Option<Wire>): Effect
  {
    if cell.None? || !Valid(cell.value.doc) || job.event !in cell.value.doc.journal then (Failed, cell)
    else
      var entry := cell.value.doc.journal[job.event];
      if !IsOpen(entry) then (Returned(entry.status), cell)
      else if entry.owner != job.owner || !Valid(RecordedDocument(cell.value.doc, job, receipt)) then (Failed, cell)
      else
        var written := Some(Cell(RecordedDocument(cell.value.doc, job, receipt), nextTag));
        match wire
        case Some(Lands) => (Returned(StatusFor(receipt)), written)
        case Some(LandsUnheard) => (Failed, written)
        case _ => (Failed, cell)
  }

  /** One try: read, check and write the entry. None after a conflict. */
  method TryRecord(store: Store, id: nat, job: Job, receipt: Option<string>, tries: nat, wire: Wire) returns (outcome: Option<Outcome>)
    requires store.Valid() && tries < MAX_CAS_RETRIES
    requires IsAt(store.world, id, RecordReading(job, receipt, tries))
    modifies store
    ensures store.Valid() && Extends(old(store.actions), store.actions, id)
    ensures store.world.sends == old(store.world).sends
    ensures outcome.Some? ==> (outcome.value, store.cell) == Recorded(old(store.cell), old(store.nextTag), job, receipt, Some(wire))
    ensures outcome.None? ==> wire == LosesRace && store.cell == old(store.cell) && store.nextTag == old(store.nextTag)
    ensures outcome.Some? && outcome.value.Returned? ==> IsAt(store.world, id, Done)
    ensures outcome.None? && tries + 1 < MAX_CAS_RETRIES ==> IsAt(store.world, id, RecordReading(job, receipt, tries + 1))
    ensures outcome.None? ==> Recorded(old(store.cell), old(store.nextTag), job, receipt, None) == (Failed, old(store.cell))
    ensures outcome.Some? && wire == LosesRace ==>
      forall w :: Recorded(old(store.cell), old(store.nextTag), job, receipt, w) == (outcome.value, store.cell)
  {
    hide Run, Apply, Valid, ClockAccepted, RecordRead, RecordedDocument, Writes, Extends;
    ghost var before, begun := store.world, store.actions;
    var read := store.Read();
    RecordReadApplies(store.world, id, job, receipt, tries);
    store.Take(Step(id, Proceed));
    if read.None? || !Valid(read.value.doc) || job.event !in read.value.doc.journal {
      return Some(Failed);
    }
    RecordReadDecides(before, id, job, receipt, tries, read.value);
    var entry := read.value.doc.journal[job.event];
    if entry.status == Acknowledged || entry.status == RetiredNoSend {
      return Some(Returned(entry.status));
    }
    if entry.owner != job.owner {
      return Some(Failed);
    }
    var status := if receipt.Some? then Acknowledged else DeliveryStatus.Unknown;
    var document := read.value.doc.(journal := read.value.doc.journal[job.event := entry.(status := status, receipt := receipt)]);
    if !Valid(document) {
      return Some(Failed);
    }
    RecordWriteApplies(store.world, id, job, receipt, tries, read.value);
    RecordWriteWrites(store.world, id, job, receipt, tries, read.value);
    ghost var deciding := store.actions;
    var heard := store.CompareAndSwap(id, Some(read.value.tag), document, wire);
    ExtendsFurther(begun, deciding, store.actions, id);
    outcome := if heard.Written? then Some(Returned(status)) else if heard.Unheard? then Some(Failed) else None;
  }

  /** The receipt that is recorded: only a lookup can supply one. */
  function ReceiptOf(reconcile: bool, s: Surroundings): Option<string> {
    if reconcile && s.secondLookup.Replied? && s.secondLookup.value.AcknowledgedBy?
    then Some(s.secondLookup.value.receipt) else None
  }

  /** The evidence is looked up, if asked for, and recorded by the first of three writes that is not lost
      to another writer. */
  function Evidenced(cell: Option<Cell>, nextTag: nat, job: Job, reconcile: bool, s: Surroundings): Effect {
    if reconcile && s.secondLookup.Raised? then (Failed, cell)
    else Recorded(cell, nextTag, job, ReceiptOf(reconcile, s), Deciding(s.records, 0))
  }

  /** A status that is returned is the one the entry has. */
  lemma RecordedReports(cell: Option<Cell>, nextTag: nat, job: Job, receipt: Option<string>, wire: Option<Wire>)
    ensures var (outcome, after) := Recorded(cell, nextTag, job, receipt, wire);
      !outcome.Ineligible? && Reports(outcome, after, job.event)
  {
    hide Valid;
  }

  method RecordEvidence(store: Store, id: nat, job: Job, reconcile: bool, s: Surroundings) returns (outcome: Outcome)
    requires store.Valid() && JobAccepted(job)
    requires IsAt(store.world, id, if reconcile then RecordLooking(job) else RecordReading(job, None, 0))
    modifies store
    ensures store.Valid() && Extends(old(store.actions), store.actions, id)
    ensures store.world.sends == old(store.world).sends
    ensures (outcome, store.cell) == Evidenced(old(store.cell), old(store.nextTag), job, reconcile, s)
    ensures !outcome.Ineligible? && Reports(outcome, store.cell, job.event)
    ensures outcome.Returned? ==> IsAt(store.world, id, Done)
  {
    hide Run, Apply, Reports, Recorded;
    var receipt: Option<string> := None;
    if reconcile {
      if s.secondLookup.Raised? {
        outcome := Failed;
        NothingReported(store.cell, job.event);
        return;
      }
      receipt := if s.secondLookup.value.AcknowledgedBy? then Some(s.secondLookup.value.receipt) else None;
      FoundApplies(store.world, id, job, s.secondLookup.value);
      store.Take(Step(id, Found(s.secondLookup.value)));
    }
    RecordedReports(store.cell, store.nextTag, job, receipt, Deciding(s.records, 0));
    for tries := 0 to MAX_CAS_RETRIES
      invariant store.Valid() && Extends(old(store.actions), store.actions, id)
      invariant store.world.sends == old(store.world).sends
      invariant store.cell == old(store.cell) && store.nextTag == old(store.nextTag)
      invariant Deciding(s.records, 0) == Deciding(s.records, tries)
      invariant tries < MAX_CAS_RETRIES ==> IsAt(store.world, id, RecordReading(job, receipt, tries))
      invariant tries > 0 ==> Recorded(store.cell, store.nextTag, job, receipt, None) == (Failed, store.cell)
    {
      var tried := TryRecord(store, id, job, receipt, tries, if tries < |s.records| then s.records[tries] else Lands);
      if tried.Some? {
        return tried.value;
      }
    }
    return Failed;
  }

  lemma NothingReported(cell: Option<Cell>, event: EventId)
    ensures Reports(Failed, cell, event)
  {
  }

  ghost predicate IsAt(w: World, id: nat, worker: Worker) {
    id in w.workers && w.workers[id] == worker
  }

  /** The code's checks on a record read, one after the other, are the protocol's. */
  lemma RecordReadDecides(w: World, id: nat, job: Job, receipt: Option<string>, tries: nat, read: Cell)
    requires w.store == Some(read) && Valid(read.doc) && job.event in read.doc.journal
    ensures var entry := read.doc.journal[job.event];
      var next := RecordRead(w, RecordReading(job, receipt, tries));
      var status := if receipt.Some? then Acknowledged else DeliveryStatus.Unknown;
      var document := read.doc.(journal := read.doc.journal[job.event := entry.(status := status, receipt := receipt)]);
      && document == RecordedDocument(read.doc, job, receipt)
      && (!IsOpen(entry) || entry.owner != job.owner ==> next == Done)
      && (IsOpen(entry) && entry.owner == job.owner ==>
            next == if Valid(document) then RecordWrite(job, receipt, tries, read) else Done)
  {
    hide Valid;
  }

  lemma FoundApplies(w: World, id: nat, job: Job, evidence: Evidence)
    requires id in w.workers && w.workers[id] == RecordLooking(job)
    ensures var v := Apply(w, Step(id, Found(evidence)));
      && v.store == w.store && v.nextTag == w.nextTag && v.sends == w.sends && id in v.workers
      && v.workers[id] == RecordReading(job, if evidence.AcknowledgedBy? then Some(evidence.receipt) else None, 0)
  {
  }

  lemma RecordReadApplies(w: World, id: nat, job: Job, receipt: Option<string>, tries: nat)
    requires id in w.workers && w.workers[id] == RecordReading(job, receipt, tries)
    ensures var v := Apply(w, Step(id, Proceed));
      && v.store == w.store && v.nextTag == w.nextTag && v.sends == w.sends && id in v.workers
      && v.workers[id] == RecordRead(w, w.workers[id])
  {
    hide Valid, RecordRead;
  }

  lemma RecordWriteWrites(w: World, id: nat, job: Job, receipt: Option<string>, tries: nat, read: Cell)
    requires id in w.workers && w.workers[id] == RecordWrite(job, receipt, tries, read) && job.event in read.doc.journal
    ensures Writes(w, id, Some(read.tag), RecordedDocument(read.doc, job, receipt))
  {
    hide RecordedDocument;
  }

  /** What follows a record write, when it is heard of. */
  lemma RecordWriteApplies(w: World, id: nat, job: Job, receipt: Option<string>, tries: nat, read: Cell)
    requires id in w.workers && w.workers[id] == RecordWrite(job, receipt, tries, read) && job.event in read.doc.journal
    ensures TagMatches(w, Some(read.tag)) ==> Apply(w, Step(id, Wrote)).workers[id] == Done
    ensures Apply(w, Step(id, Refused)).workers[id] ==
      if tries + 1 < MAX_CAS_RETRIES then RecordReading(job, receipt, tries + 1) else Done
  {
    hide RecordedDocument;
  }

  // ---------- dispatch_one ----------

  lemma BeginApplies(w: World, id: nat, job: Job)
    requires id !in w.workers && JobAccepted(job)
    ensures var v := Apply(w, BeginDispatch(id, job));
      v.store == w.store && v.nextTag == w.nextTag && v.sends == w.sends && IsAt(v, id, Dispatching(job))
  {
    hide ClockAccepted;
  }

  lemma DispatchReadApplies(w: World, id: nat, job: Job)
    requires IsAt(w, id, Dispatching(job)) && JobAccepted(job)
    ensures var v := Apply(w, Step(id, Proceed));
      v.store == w.store && v.nextTag == w.nextTag && v.sends == w.sends && IsAt(v, id, DispatchRead(w, job))
  {
    hide ClockAccepted, DispatchRead;
  }

  lemma LookupApplies(w: World, id: nat, job: Job, claimed: Cell, evidence: Evidence)
    requires IsAt(w, id, Looking(job, claimed)) && JobAccepted(job) && job.event in claimed.doc.journal
    ensures var v := Apply(w, Step(id, Found(evidence)));
      v.store == w.store && v.nextTag == w.nextTag && v.sends == w.sends && IsAt(v, id, AfterLookup(job, claimed, evidence))
  {
    hide ClockAccepted, AfterLookup;
  }

  lemma SendApplies(w: World, id: nat, job: Job, reserved: Document, claim: nat)
    requires IsAt(w, id, Sending(job, reserved, claim)) && JobAccepted(job) && job.event in reserved.journal
    ensures var v := Apply(w, Step(id, Proceed));
      && v.store == w.store && v.nextTag == w.nextTag && IsAt(v, id, AwaitingSend(job, reserved))
      && v.sends == w.sends + [Send(job.event, Entry(reserved, job).attempts, Eligible(reserved.commit.state, job.event),
                                    reserved.commit, job.now, claim)]
  {
    hide ClockAccepted, Eligible;
  }

  lemma SendReturnApplies(w: World, id: nat, job: Job, reserved: Document, acknowledged: bool)
    requires IsAt(w, id, AwaitingSend(job, reserved)) && JobAccepted(job) && job.event in reserved.journal
    ensures var v := Apply(w, Step(id, SendReturned(acknowledged)));
      && v.store == w.store && v.nextTag == w.nextTag && v.sends == w.sends
      && IsAt(v, id, if acknowledged then RecordLooking(job) else RecordReading(job, None, 0))
  {
    hide ClockAccepted;
  }

  /** The code's checks before the claim, one after the other. */
  predicate MayClaim(doc: Document, job: Job)
    requires JobAccepted(job)
  {
    var sendable := FreshForSend(doc.commit, Eligible(doc.commit.state, job.event), job.now);
    if job.event in doc.journal then
      var existing := doc.journal[job.event];
      && existing.status != Acknowledged
      && !(existing.status == RetiredNoSend
           && (existing.retiredAt.None? || doc.commit.sequence <= existing.retiredAt.value || !sendable))
      && !(IsOpen(existing) && existing.leaseUntil > job.now)
    else
      sendable && |doc.journal| < MAX_JOURNAL
  }

  lemma MayClaimDecides(w: World, job: Job, read: Cell)
    requires w.store == Some(read) && Valid(read.doc) && JobAccepted(job)
    ensures DispatchRead(w, job) ==
      if MayClaim(read.doc, job) && Valid(ClaimedDocument(read.doc, job)) then ClaimWrite(job, read) else Done
  {
    hide Valid, FreshForSend, ClockAccepted, Eligible, ClaimedDocument;
  }

  predicate Sendable(doc: Document, job: Job)
    requires JobAccepted(job)
  {
    FreshForSend(doc.commit, Eligible(doc.commit.state, job.event), job.now)
  }

  /** What a claim leads to: which answer of the lookup makes which write, and what the write leaves. */
  function Resolved(cell: Option<Cell>, nextTag: nat, job: Job, claimed: Cell, s: Surroundings): Effect
    requires JobAccepted(job) && job.event in claimed.doc.journal
  {
    if s.lookup.Raised? then (Failed, cell)
    else
      match s.lookup.value
      case AcknowledgedBy(_) => Evidenced(cell, nextTag, job, true, s)
      case NotKnown => Evidenced(cell, nextTag, job, false, s)
      case Absent =>
        if !Sendable(claimed.doc, job) && Entry(claimed.doc, job).attempts == 0 then Retired(cell, nextTag, job, claimed, s.retire)
        else if !Sendable(claimed.doc, job) || Entry(claimed.doc, job).attempts >= MAX_ATTEMPTS then Evidenced(cell, nextTag, job, false, s)
        else Reserved(cell, nextTag, job, claimed, s)
  }

  /** A send is made if the destination knows nothing of a sendable event and the attempt was written. */
  predicate Sends(cell: Option<Cell>, job: Job, claimed: Cell, s: Surroundings)
    requires JobAccepted(job) && job.event in claimed.doc.journal
  {
    && s.lookup == Replied(Absent) && Sendable(claimed.doc, job) && Entry(claimed.doc, job).attempts < MAX_ATTEMPTS
    && Reserves(cell, job, claimed, s.reserve)
  }

  /** The lookup that follows every claim, and what it leads to. */
  method AfterClaim(store: Store, id: nat, job: Job, claimed: Cell, s: Surroundings) returns (outcome: Outcome)
    requires store.Valid() && JobAccepted(job) && job.event in claimed.doc.journal
    requires IsAt(store.world, id, Looking(job, claimed))
    modifies store
    ensures store.Valid() && Extends(old(store.actions), store.actions, id)
    ensures (outcome, store.cell) == Resolved(old(store.cell), old(store.nextTag), job, claimed, s)
    ensures store.world.sends == old(store.world).sends
      + if Sends(old(store.cell), job, claimed, s) then [SendOf(job, claimed)] else []
    ensures Sends(old(store.cell), job, claimed, s) ==>
      SentWhenReserved(store.start, store.actions, |old(store.actions)| + 1, id, Cell(ReservedDocument(claimed.doc, job), old(store.nextTag)))
    ensures !outcome.Ineligible? && Reports(outcome, store.cell, job.event)
  {
    hide Run, Apply, Valid, ClockAccepted, FreshForSend, Eligible, AfterLookup;
    if s.lookup.Raised? {
      return Failed;
    }
    var evidence := s.lookup.value;
    LookupApplies(store.world, id, job, claimed, evidence);
    store.Take(Step(id, Found(evidence)));
    AfterLookupIs(job, claimed, evidence);
    if evidence.AcknowledgedBy? {
      outcome := RecordEvidence(store, id, job, true, s);
      return;
    }
    if evidence.NotKnown? {
      outcome := RecordEvidence(store, id, job, false, s);
      return;
    }
    var sendable := FreshForSend(claimed.doc.commit, Eligible(claimed.doc.commit.state, job.event), job.now);
    var attempts := claimed.doc.journal[job.event].attempts;
    if !sendable && attempts == 0 {
      outcome := Retire(store, id, job, claimed, s.retire);
      return;
    }
    if !sendable || attempts >= MAX_ATTEMPTS {
      outcome := RecordEvidence(store, id, job, false, s);
      return;
    }
    outcome := ReserveAndSend(store, id, job, claimed, s);
  }

  lemma AfterLookupIs(job: Job, claimed: Cell, evidence: Evidence)
    requires JobAccepted(job) && job.event in claimed.doc.journal
    ensures var sendable := FreshForSend(claimed.doc.commit, Eligible(claimed.doc.commit.state, job.event), job.now);
      var attempts := claimed.doc.journal[job.event].attempts;
      AfterLookup(job, claimed, evidence) ==
        if evidence.AcknowledgedBy? then RecordLooking(job)
        else if evidence.NotKnown? then RecordReading(job, None, 0)
        else if !sendable && attempts == 0 then
          if Valid(RetiredDocument(claimed.doc, job)) then RetireWrite(job, claimed) else Done
        else if !sendable || attempts >= MAX_ATTEMPTS then RecordReading(job, None, 0)
        else if Valid(ReservedDocument(claimed.doc, job)) then ReserveWrite(job, claimed) else Done
  {
    hide Valid, FreshForSend, ClockAccepted, Eligible, RetiredDocument, ReservedDocument;
  }

  /** The document in the store after a conditional write under a tag. */
  function Swapped(cell: Option<Cell>, nextTag: nat, tag: nat, document: Document, wire: Wire): Option<Cell> {
    if cell.Some? && cell.value.tag == tag && (wire == Lands || wire == LandsUnheard) then Some(Cell(document, nextTag)) else cell
  }

  /** A conditional write under a tag that took effect and was heard of. */
  predicate Succeeds(cell: Option<Cell>, tag: nat, wire: Wire) {
    cell.Some? && cell.value.tag == tag && wire == Lands
  }

  /** Retiring an entry that was never sent. */
  function Retired(cell: Option<Cell>, nextTag: nat, job: Job, claimed: Cell, wire: Wire): Effect
    requires job.event in claimed.doc.journal
  {
    var document := RetiredDocument(claimed.doc, job);
    if !Valid(document) then (Failed, cell)
    else (if Succeeds(cell, claimed.tag, wire) then Returned(RetiredNoSend) else Failed,
          Swapped(cell, nextTag, claimed.tag, document, wire))
  }

  method Retire(store: Store, id: nat, job: Job, claimed: Cell, wire: Wire) returns (outcome: Outcome)
    requires store.Valid() && JobAccepted(job) && job.event in claimed.doc.journal
    requires IsAt(store.world, id, if Valid(RetiredDocument(claimed.doc, job)) then RetireWrite(job, claimed) else Done)
    modifies store
    ensures store.Valid() && Extends(old(store.actions), store.actions, id)
    ensures store.world.sends == old(store.world).sends
    ensures (outcome, store.cell) == Retired(old(store.cell), old(store.nextTag), job, claimed, wire)
    ensures !outcome.Ineligible? && Reports(outcome, store.cell, job.event)
  {
    hide Run, Apply, Valid, ClockAccepted;
    var entry := claimed.doc.journal[job.event];
    var document := claimed.doc.(journal := claimed.doc.journal[job.event :=
      entry.(status := RetiredNoSend, retiredAt := Some(claimed.doc.commit.sequence))]);
    assert document == RetiredDocument(claimed.doc, job);
    if !Valid(document) {
      return Failed;
    }
    var heard := store.CompareAndSwap(id, Some(claimed.tag), document, wire);
    return if heard.Written? then Returned(RetiredNoSend) else Failed;
  }

  /** The attempt is written durably, and the worker hears of it. */
  predicate Reserves(cell: Option<Cell>, job: Job, claimed: Cell, wire: Wire)
    requires job.event in claimed.doc.journal
  {
    Valid(ReservedDocument(claimed.doc, job)) && Succeeds(cell, claimed.tag, wire)
  }

  /** What a send carries: the event of the ledger it is reserved on, and the attempt it uses. */
  function SendOf(job: Job, claimed: Cell): Send
    requires job.event in claimed.doc.journal
  {
    Send(job.event, Entry(claimed.doc, job).attempts + 1, Eligible(claimed.doc.commit.state, job.event), claimed.doc.commit,
         job.now, claimed.tag)
  }

  /** Reserving and sending: what is reported, and what is left in the store. */
  function Reserved(cell: Option<Cell>, nextTag: nat, job: Job, claimed: Cell, s: Surroundings): Effect
    requires job.event in claimed.doc.journal
  {
    var document := ReservedDocument(claimed.doc, job);
    if !Valid(document) then (Failed, cell)
    else if !Succeeds(cell, claimed.tag, s.reserve) then (Failed, Swapped(cell, nextTag, claimed.tag, document, s.reserve))
    else if s.send.Raised? then (Failed, Some(Cell(document, nextTag)))
    else Evidenced(Some(Cell(document, nextTag)), nextTag + 1, job, s.send.value, s)
  }

  /** The k-th action is the worker's write, after which the store holds the document with the attempt;
      the next one is its send. */
  ghost predicate SentWhenReserved(start: World, actions: seq<Action>, k: nat, id: nat, reserved: Cell) {
    && k + 1 < |actions| && actions[k] == Step(id, Wrote) && actions[k + 1] == Step(id, Proceed)
    && Run(start, actions[..k + 1]).store == Some(reserved)
    && |Run(start, actions[..k + 2]).sends| == |Run(start, actions[..k + 1]).sends| + 1
  }

  /** The first action on top of these was the worker's send. */
  ghost predicate SentFirst(start: World, before: seq<Action>, after: seq<Action>, id: nat) {
    && |before| < |after| && before <= after && after[|before|] == Step(id, Proceed)
    && |Run(start, after[..|before| + 1]).sends| == |Run(start, before).sends| + 1
  }

  /** Calls the destination, looks up what became of it if that was acknowledged, and records it. */
  method SendAndRecord(store: Store, id: nat, job: Job, reserved: Document, ghost claim: nat, s: Surroundings)
    returns (outcome: Outcome)
    requires store.Valid() && JobAccepted(job) && job.event in reserved.journal
    requires IsAt(store.world, id, Sending(job, reserved, claim))
    modifies store
    ensures store.Valid() && Extends(old(store.actions), store.actions, id)
    ensures (outcome, store.cell) ==
      if s.send.Raised? then (Failed, old(store.cell)) else Evidenced(old(store.cell), old(store.nextTag), job, s.send.value, s)
    ensures store.world.sends == old(store.world).sends
      + [Send(job.event, Entry(reserved, job).attempts, Eligible(reserved.commit.state, job.event), reserved.commit, job.now, claim)]
    ensures SentFirst(store.start, old(store.actions), store.actions, id)
    ensures !outcome.Ineligible? && Reports(outcome, store.cell, job.event)
  {
    hide Run, Apply, ClockAccepted, Eligible, Extends, Evidenced;
    ghost var begun, first := store.actions, store.world;
    SendApplies(store.world, id, job, reserved, claim);
    store.Take(Step(id, Proceed));
    ghost var sent := store.actions;
    assert sent[..|begun| + 1] == sent;
    if s.send.Raised? {
      NothingReported(store.cell, job.event);
      return Failed;
    }
    SendReturnApplies(store.world, id, job, reserved, s.send.value);
    store.Take(Step(id, SendReturned(s.send.value)));
    ghost var returned := store.actions;
    ExtendsFurther(begun, sent, returned, id);
    outcome := RecordEvidence(store, id, job, s.send.value, s);
    ExtendsFurther(begun, returned, store.actions, id);
    ExtendsIsPrefix(returned, store.actions, id);
    assert store.actions[..|begun| + 1] == sent;
  }

  /** Reserves one attempt durably and only then calls the destination. */
  method ReserveAndSend(store: Store, id: nat, job: Job, claimed: Cell, s: Surroundings) returns (outcome: Outcome)
    requires store.Valid() && JobAccepted(job) && job.event in claimed.doc.journal
    requires IsAt(store.world, id, if Valid(ReservedDocument(claimed.doc, job)) then ReserveWrite(job, claimed) else Done)
    modifies store
    ensures store.Valid() && Extends(old(store.actions), store.actions, id)
    ensures (outcome, store.cell) == Reserved(old(store.cell), old(store.nextTag), job, claimed, s)
    ensures store.world.sends == old(store.world).sends
      + if Reserves(old(store.cell), job, claimed, s.reserve) then [SendOf(job, claimed)] else []
    ensures Reserves(old(store.cell), job, claimed, s.reserve) ==>
      SentWhenReserved(store.start, store.actions, |old(store.actions)|, id, Cell(ReservedDocument(claimed.doc, job), old(store.nextTag)))
    ensures !outcome.Ineligible? && Reports(outcome, store.cell, job.event)
  {
    hide Run, Apply, Valid, ClockAccepted, Eligible, Extends, SentWhenReserved, SentFirst, Evidenced;
    ghost var begun := store.actions;
    var entry := claimed.doc.journal[job.event];
    var document := claimed.doc.(journal := claimed.doc.journal[job.event := entry.(attempts := entry.attempts + 1)]);
    assert document == ReservedDocument(claimed.doc, job);
    if !Valid(document) {
      ExtendsSelf(begun, id);
      return Failed;
    }
    ReserveApplies(store.world, id, job, claimed);
    var heard := store.CompareAndSwap(id, Some(claimed.tag), document, s.reserve);
    if !heard.Written? {
      NothingReported(store.cell, job.event);
      return Failed;
    }
    ghost var reserving := store.actions;
    outcome := SendAndRecord(store, id, job, document, claimed.tag, s);
    ExtendsFurther(begun, reserving, store.actions, id);
    SendFollowsWrite(store.start, begun, reserving, store.actions, id, Cell(document, old(store.nextTag)));
  }

  lemma SendFollowsWrite(start: World, begun: seq<Action>, reserving: seq<Action>, actions: seq<Action>, id: nat, reserved: Cell)
    requires reserving == begun + [Step(id, Wrote)] && Run(start, reserving).store == Some(reserved)
    requires SentFirst(start, reserving, actions, id)
    ensures SentWhenReserved(start, actions, |begun|, id, reserved)
  {
    hide Run, Apply;
    assert actions[..|begun| + 1] == reserving;
  }

  lemma ReserveApplies(w: World, id: nat, job: Job, claimed: Cell)
    requires IsAt(w, id, ReserveWrite(job, claimed)) && JobAccepted(job) && job.event in claimed.doc.journal
    ensures TagMatches(w, Some(claimed.tag)) ==>
      IsAt(Apply(w, Step(id, Wrote)), id, Sending(job, ReservedDocument(claimed.doc, job), claimed.tag))
  {
    hide ClockAccepted, ReservedDocument;
  }

  lemma ClaimApplies(w: World, id: nat, job: Job, read: Cell)
    requires IsAt(w, id, ClaimWrite(job, read)) && JobAccepted(job)
    ensures TagMatches(w, Some(read.tag)) ==>
      IsAt(Apply(w, Step(id, Wrote)), id, Looking(job, Cell(ClaimedDocument(read.doc, job), w.nextTag)))
  {
    hide ClockAccepted, ClaimedDocument;
  }

  /** An entry that a call returns as it is: acknowledged, or retired with nothing newer to send. */
  predicate Settled(doc: Document, job: Job)
    requires JobAccepted(job)
  {
    job.event in doc.journal &&
    var existing := doc.journal[job.event];
    || existing.status == Acknowledged
    || (existing.status == RetiredNoSend
        && (existing.retiredAt.None? || doc.commit.sequence <= existing.retiredAt.value || !Sendable(doc, job)))
  }

  /** What a call of dispatch_one reports and leaves in the store. */
  function Dispatched(cell: Option<Cell>, nextTag: nat, job: Job, s: Surroundings): Effect
    requires JobAccepted(job)
  {
    if cell.None? || !Valid(cell.value.doc) then (Failed, cell)
    else
      var doc, claim := cell.value.doc, ClaimedDocument(cell.value.doc, job);
      if Settled(doc, job) then (Returned(doc.journal[job.event].status), cell)
      else if job.event !in doc.journal && !Sendable(doc, job) then (Ineligible, cell)
      else if !MayClaim(doc, job) || !Valid(claim) then (Failed, cell)
      else if s.claim != Lands then (Failed, Swapped(cell, nextTag, cell.value.tag, claim, s.claim))
      else Resolved(Some(Cell(claim, nextTag)), nextTag + 1, job, Cell(claim, nextTag), s)
  }

  /** The call claims the event and sends it. */
  predicate DispatchSends(cell: Option<Cell>, nextTag: nat, job: Job, s: Surroundings)
    requires JobAccepted(job)
  {
    && cell.Some? && Valid(cell.value.doc) && MayClaim(cell.value.doc, job) && Valid(ClaimedDocument(cell.value.doc, job))
    && s.claim == Lands
    && var claimed := Cell(ClaimedDocument(cell.value.doc, job), nextTag);
       Sends(Some(claimed), job, claimed, s)
  }

  /** The claim, and what follows it; a worker that does not hear of its claim never calls the destination. */
  method ClaimAndGoOn(store: Store, id: nat, job: Job, read: Cell, claim: Document, s: Surroundings) returns (outcome: Outcome)
    requires store.Valid() && store.cell == Some(read) && JobAccepted(job) && claim == ClaimedDocument(read.doc, job)
    requires IsAt(store.world, id, ClaimWrite(job, read))
    modifies store
    ensures store.Valid() && Extends(old(store.actions), store.actions, id)
    ensures var claimed := Cell(claim, old(store.nextTag));
      && ((outcome, store.cell) == if s.claim != Lands then (Failed, Swapped(Some(read), old(store.nextTag), read.tag, claim, s.claim))
                                   else Resolved(Some(claimed), old(store.nextTag) + 1, job, claimed, s))
      && store.world.sends == old(store.world).sends
           + if s.claim == Lands && Sends(Some(claimed), job, claimed, s) then [SendOf(job, claimed)] else []
    ensures !outcome.Ineligible? && Reports(outcome, store.cell, job.event)
  {
    hide Run, Apply, Valid, ClockAccepted, Resolved, Sends, SendOf, ClaimedDocument, SentWhenReserved;
    assert job.event in claim.journal by { ClaimWritesEntry(read.doc, job); }
    ClaimApplies(store.world, id, job, read);
    var tag := store.nextTag;
    var heard := store.CompareAndSwap(id, Some(read.tag), claim, s.claim);
    if !heard.Written? {
      NothingReported(store.cell, job.event);
      return Failed;
    }
    outcome := AfterClaim(store, id, job, Cell(claim, tag), s);
  }

  /** One call of dispatch_one. */
  method DispatchOne(store: Store, id: nat, job: Job, s: Surroundings) returns (outcome: Outcome)
    requires store.Valid() && id !in store.world.workers && JobAccepted(job)
    modifies store
    ensures store.Valid() && Extends(old(store.actions), store.actions, id)
    ensures (outcome, store.cell) == Dispatched(old(store.cell), old(store.nextTag), job, s)
    ensures store.world.sends == old(store.world).sends
      + if DispatchSends(old(store.cell), old(store.nextTag), job, s)
        then [SendOf(job, Cell(ClaimedDocument(old(store.cell).value.doc, job), old(store.nextTag)))] else []
    ensures Reports(outcome, store.cell, job.event)
    ensures outcome.Ineligible? ==> store.cell == old(store.cell) && store.world.sends == old(store.world).sends
  {
    hide Run, Apply, Valid, ClockAccepted, FreshForSend, Eligible, DispatchRead, Resolved, Sends, SendOf,
      Swapped, MayClaim, ClaimedDocument;
    BeginApplies(store.world, id, job);
    store.Take(BeginDispatch(id, job));
    var read := store.Read();
    ghost var before := store.world;
    DispatchReadApplies(store.world, id, job);
    store.Take(Step(id, Proceed));
    if read.None? || !Valid(read.value.doc) {
      return Failed;
    }
    var document := read.value.doc;
    MayClaimDecides(before, job, read.value);
    MayClaimExactly(document, job);
    var sendable := FreshForSend(document.commit, Eligible(document.commit.state, job.event), job.now);
    var attempts := 0;
    if job.event in document.journal {
      var existing := document.journal[job.event];
      if existing.status == Acknowledged {
        return Returned(Acknowledged);
      }
      if existing.status == RetiredNoSend
         && (existing.retiredAt.None? || document.commit.sequence <= existing.retiredAt.value || !sendable) {
        return Returned(RetiredNoSend);
      }
      if IsOpen(existing) && existing.leaseUntil > job.now {
        return Failed;
      }
      attempts := existing.attempts;
    } else {
      if !sendable {
        return Ineligible;
      }
      if |document.journal| >= MAX_JOURNAL {
        return Failed;
      }
    }
    var claim := document.(journal := document.journal[job.event :=
      JournalEntry(Claimed, job.owner, job.now + LEASE_SECONDS, attempts, None, None)]);
    ClaimIs(document, job, attempts);
    if !Valid(claim) {
      return Failed;
    }
    outcome := ClaimAndGoOn(store, id, job, read.value, claim, s);
  }

  lemma ClaimIs(doc: Document, job: Job, attempts: int)
    requires attempts == if job.event in doc.journal then doc.journal[job.event].attempts else 0
    ensures ClaimedDocument(doc, job) == doc.(journal := doc.journal[job.event :=
      JournalEntry(Claimed, job.owner, job.now + LEASE_SECONDS, attempts, None, None)])
  {
  }

  /** The checks of the call, all passed, allow the claim. */
  lemma MayClaimExactly(doc: Document, job: Job)
    requires JobAccepted(job)
    ensures MayClaim(doc, job) <==>
      && !Settled(doc, job)
      && (job.event in doc.journal ==> !(IsOpen(doc.journal[job.event]) && doc.journal[job.event].leaseUntil > job.now))
      && (job.event !in doc.journal ==> Sendable(doc, job) && |doc.journal| < MAX_JOURNAL)
  {
    hide ClockAccepted, FreshForSend, Eligible;
  }

  // ---------- when every call answers ----------

  function AttemptsSoFar(doc: Document, job: Job): int {
    if job.event in doc.journal then doc.journal[job.event].attempts else 0
  }

  function ClaimEntry(doc: Document, job: Job): JournalEntry {
    JournalEntry(Claimed, job.owner, job.now + LEASE_SECONDS, AttemptsSoFar(doc, job), None, None)
  }

  lemma ClaimWritesEntry(doc: Document, job: Job)
    ensures ClaimedDocument(doc, job) == WithEntry(doc, job, ClaimEntry(doc, job))
  {
  }

  /** Replacing one entry by a valid one keeps a document valid. */
  lemma WithEntryIsValid(doc: Document, job: Job, entry: JournalEntry)
    requires Valid(doc) && (job.event in doc.journal || |doc.journal| < MAX_JOURNAL) && EntryValid(entry, doc.commit.sequence)
    ensures Valid(WithEntry(doc, job, entry))
  {
    hide StateAccepted;
  }

  lemma MayClaimWrites(doc: Document, job: Job)
    requires JobAccepted(job) && Valid(doc) && MayClaim(doc, job)
    ensures Valid(ClaimedDocument(doc, job)) && !Settled(doc, job)
    ensures job.event in doc.journal || Sendable(doc, job)
    ensures 0 <= AttemptsSoFar(doc, job) <= MAX_ATTEMPTS
  {
    hide StateAccepted, ClockAccepted, FreshForSend, Eligible;
    ClaimWritesEntry(doc, job);
    WithEntryIsValid(doc, job, ClaimEntry(doc, job));
  }

  /** Every call answers: nothing is known of the event, the send is acknowledged, and so is the lookup
      after it. */
  predicate Delivers(s: Surroundings, receipt: string) {
    && s.claim == Lands && s.lookup == Replied(Absent) && s.reserve == Lands && s.send == Replied(true)
    && s.secondLookup == Replied(AcknowledgedBy(receipt)) && WireAt(s.records, 0) == Lands
  }

  /** A call that may claim a sendable event with an attempt left, and is answered throughout, sends it
      once and records the receipt; nothing else of the document changes. */
  lemma AnsweredCallDelivers(read: Cell, nextTag: nat, job: Job, s: Surroundings, receipt: string)
    requires JobAccepted(job) && Valid(read.doc) && MayClaim(read.doc, job) && Sendable(read.doc, job)
    requires AttemptsSoFar(read.doc, job) < MAX_ATTEMPTS && Delivers(s, receipt)
    ensures DispatchSends(Some(read), nextTag, job, s)
    ensures var (outcome, after) := Dispatched(Some(read), nextTag, job, s);
      && outcome == Returned(Acknowledged) && after.Some?
      && after.value.doc == WithEntry(read.doc, job, ClaimEntry(read.doc, job).(
           status := Acknowledged, attempts := AttemptsSoFar(read.doc, job) + 1, receipt := Some(receipt)))
  {
    hide Valid, ClockAccepted, FreshForSend, Eligible, MayClaim, Settled;
    MayClaimWrites(read.doc, job);
    ClaimWritesEntry(read.doc, job);
    var entry := ClaimEntry(read.doc, job);
    var claimed := ClaimedDocument(read.doc, job);
    var more := entry.(attempts := entry.attempts + 1);
    assert EntryValid(more, read.doc.commit.sequence);
    WithEntryIsValid(claimed, job, more);
    var reserved := ReservedDocument(claimed, job);
    assert reserved == WithEntry(claimed, job, more);
    WithEntryIsValid(reserved, job, more.(status := Acknowledged, receipt := Some(receipt)));
    assert RecordedDocument(reserved, job, Some(receipt)) == WithEntry(reserved, job, more.(status := Acknowledged, receipt := Some(receipt)));
  }

  /** A claim that nothing was ever sent under, whose event is no longer sendable, ends retired if the
      destination knows nothing of it. */
  lemma AnsweredCallRetires(read: Cell, nextTag: nat, job: Job, s: Surroundings)
    requires JobAccepted(job) && Valid(read.doc) && MayClaim(read.doc, job) && !Sendable(read.doc, job)
    requires AttemptsSoFar(read.doc, job) == 0 && s.claim == Lands && s.lookup == Replied(Absent) && s.retire == Lands
    ensures !DispatchSends(Some(read), nextTag, job, s)
    ensures var (outcome, after) := Dispatched(Some(read), nextTag, job, s);
      && outcome == Returned(RetiredNoSend) && after.Some?
      && after.value.doc == WithEntry(read.doc, job, ClaimEntry(read.doc, job).(
           status := RetiredNoSend, retiredAt := Some(read.doc.commit.sequence)))
  {
    hide ClockAccepted, FreshForSend, Eligible, MayClaim, Settled, StateAccepted;
    MayClaimWrites(read.doc, job);
    ClaimWritesEntry(read.doc, job);
    var entry := ClaimEntry(read.doc, job);
    var claimed := ClaimedDocument(read.doc, job);
    WithEntryIsValid(claimed, job, entry.(status := RetiredNoSend, retiredAt := Some(claimed.commit.sequence)));
  }

  /** An event the destination already acknowledges is recorded with its receipt, without a send. */
  lemma KnownDeliveryIsRecorded(read: Cell, nextTag: nat, job: Job, s: Surroundings, known: string, receipt: string)
    requires JobAccepted(job) && Valid(read.doc) && MayClaim(read.doc, job) && s.claim == Lands
    requires s.lookup == Replied(AcknowledgedBy(known)) && s.secondLookup == Replied(AcknowledgedBy(receipt))
    requires WireAt(s.records, 0) == Lands
    ensures !DispatchSends(Some(read), nextTag, job, s)
    ensures var (outcome, after) := Dispatched(Some(read), nextTag, job, s);
      && outcome == Returned(Acknowledged) && after.Some?
      && after.value.doc == WithEntry(read.doc, job, ClaimEntry(read.doc, job).(status := Acknowledged, receipt := Some(receipt)))
  {
    hide Valid, ClockAccepted, FreshForSend, Eligible, MayClaim, Settled;
    MayClaimWrites(read.doc, job);
    ClaimWritesEntry(read.doc, job);
    var entry := ClaimEntry(read.doc, job);
    var claimed := ClaimedDocument(read.doc, job);
    var recorded := entry.(status := Acknowledged, receipt := Some(receipt));
    assert EntryValid(recorded, read.doc.commit.sequence);
    WithEntryIsValid(claimed, job, recorded);
    assert RecordedDocument(claimed, job, Some(receipt)) == WithEntry(claimed, job, recorded);
  }

  // ---------- publish ----------

  lemma BeginPublishApplies(w: World, id: nat, manifest: Manifest, policy: Policy, now: Time)
    requires id !in w.workers
    ensures var v := Apply(w, BeginPublish(id, manifest, policy, now));
      v.store == w.store && v.nextTag == w.nextTag && v.sends == w.sends && IsAt(v, id, Publishing(manifest, policy, now))
  {
  }

  lemma PublishReadApplies(w: World, id: nat, manifest: Manifest, policy: Policy, now: Time)
    requires IsAt(w, id, Publishing(manifest, policy, now))
    ensures var v := Apply(w, Step(id, Proceed));
      v.store == w.store && v.nextTag == w.nextTag && v.sends == w.sends && IsAt(v, id, PublishRead(w, Publishing(manifest, policy, now)))
  {
    hide PublishRead;
  }

  function StateOf(read: Option<Cell>): State {
    if read.Some? then read.value.doc.commit.state else EMPTY_STATE
  }

  /** What a publish writes when it gets that far. */
  function NextDocument(read: Option<Cell>, state: State, policy: Policy, now: Time): Document {
    Document(Commit(state, now, if read.Some? then read.value.doc.commit.sequence + 1 else 1, policy.freshnessHours),
             if read.Some? then read.value.doc.journal else map[])
  }

  lemma PublishReadIs(w: World, manifest: Manifest, policy: Policy, now: Time)
    ensures var next := Evaluate(manifest, policy, now, StateOf(w.store));
      PublishRead(w, Publishing(manifest, policy, now)) ==
        if w.store.Some? && (!Valid(w.store.value.doc) || HasOpenEntry(w.store.value.doc)) then Done
        else if next.None? || !Valid(NextDocument(w.store, next.value, policy, now)) then Done
        else PublishWrite(w.store, NextDocument(w.store, next.value, policy, now))
  {
    hide Valid, HasOpenEntry, Evaluate;
  }

  lemma PublishWriteWrites(w: World, id: nat, base: Option<Cell>, next: Document)
    requires IsAt(w, id, PublishWrite(base, next))
    ensures Writes(w, id, if base.Some? then Some(base.value.tag) else None, next)
  {
  }

  /** The durable document is valid without an open delivery, the evaluation accepts, and its result is
      a valid next document. */
  ghost predicate MayPublish(read: Option<Cell>, manifest: Manifest, policy: Policy, now: Time) {
    && (read.Some? ==> Valid(read.value.doc) && !HasOpenEntry(read.value.doc))
    && var next := Evaluate(manifest, policy, now, StateOf(read));
       next.Some? && Valid(NextDocument(read, next.value, policy, now))
  }

  /** One call of publish: it reports success only with the evaluated state durable under the next
      sequence and the journal carried over, never while a delivery is open. */
  method PublishOnce(store: Store, id: nat, manifest: Manifest, policy: Policy, now: Time, wire: Wire) returns (published: bool)
    requires store.Valid() && id !in store.world.workers
    modifies store
    ensures store.Valid() && Extends(old(store.actions), store.actions, id)
    ensures store.world.sends == old(store.world).sends
    ensures published <==> MayPublish(old(store.cell), manifest, policy, now) && wire == Lands
    ensures store.cell == if MayPublish(old(store.cell), manifest, policy, now) && (wire == Lands || wire == LandsUnheard)
      then Some(Cell(NextDocument(old(store.cell), Evaluate(manifest, policy, now, StateOf(old(store.cell))).value, policy, now),
                     old(store.nextTag)))
      else old(store.cell)
  {
    hide Run, Apply, Valid, HasOpenEntry, Evaluate, PublishRead, NextDocument, Writes, Extends;
    ghost var begun := store.actions;
    BeginPublishApplies(store.world, id, manifest, policy, now);
    store.Take(BeginPublish(id, manifest, policy, now));
    ghost var reading := store.actions;
    var read := store.Read();
    ghost var before := store.world;
    PublishReadApplies(store.world, id, manifest, policy, now);
    store.Take(Step(id, Proceed));
    ghost var evaluating := store.actions;
    ExtendsFurther(begun, reading, evaluating, id);
    PublishReadIs(before, manifest, policy, now);
    if read.Some? && (!Valid(read.value.doc) || HasOpenEntry(read.value.doc)) {
      return false;
    }
    var result, intents := EvaluateLedger(manifest, policy, now, StateOf(read));
    if result.None? {
      return false;
    }
    var document := NextDocument(read, result.value, policy, now);
    if !Valid(document) {
      return false;
    }
    PublishWriteWrites(store.world, id, read, document);
    var heard := store.CompareAndSwap(id, if read.Some? then Some(read.value.tag) else None, document, wire);
    ExtendsFurther(begun, evaluating, store.actions, id);
    published := heard.Written?;
  }

  /** A store that any calls of these methods were made on, starting from nothing: its sends never exceed
      the durable attempts. */
  lemma CallsAreSafe(store: Store, event: EventId)
    requires store.Valid() && store.start == START
    ensures SendCount(store.world.sends, event) <= Attempts(store.world, event) <= MAX_ATTEMPTS
  {
    SendsNeverExceedAttempts(store.actions, event);
  }
}
